/** Embedding arithmetic over the reals: cosine similarity and cluster centroids. */
module Vectors {

  type Vector = seq<real>

  // ----- Cosine similarity

  /** A product, under a name so that proofs about sums need not look into it. */
  function Product(x: real, y: real): real {
    x * y
  }

  /** The sum of products, as `reduce` adds it up from the front. */
  function Dot(a: Vector, b: Vector): real
    requires |a| == |b|
  {
    if |a| == 0 then 0.0 else Dot(a[..|a| - 1], b[..|b| - 1]) + Product(a[|a| - 1], b[|b| - 1])
  }

  /** The dot product adds up the products of the components, from the front as well. */
  lemma {:induction false} DotCons(x: real, a: Vector, y: real, b: Vector)
    requires |a| == |b|
    ensures Dot([x] + a, [y] + b) == x * y + Dot(a, b)
  {
    var n := |a|;
    if n == 0 {
      assert [x] + a == [x] && [y] + b == [y] && [x][..0] == [] && [y][..0] == [];
    } else {
      assert ([x] + a)[..n] == [x] + a[..n - 1] && ([y] + b)[..n] == [y] + b[..n - 1];
      DotCons(x, a[..n - 1], y, b[..n - 1]);
      assert ([x] + a)[n] == a[n - 1] && ([y] + b)[n] == b[n - 1];
    }
  }

  /** `sqrt` is a square root of the squared norm, which is not zero. */
  predicate Rooted(sqrt: real -> real, a: Vector) {
    sqrt(Dot(a, a)) > 0.0 && Product(sqrt(Dot(a, a)), sqrt(Dot(a, a))) == Dot(a, a)
  }

  method CalculateCosineSimilarity(a: Vector, b: Vector, sqrt: real -> real) returns (similarity: real)
    requires |a| == |b| && Rooted(sqrt, a) && Rooted(sqrt, b)
    ensures Product(similarity, Product(sqrt(Dot(a, a)), sqrt(Dot(b, b)))) == Dot(a, b)
    ensures -1.0 <= similarity <= 1.0
  {
    hide Dot, Product;
    CauchySchwarz(a, b);
    var dotProduct := SumOfProducts(a, b);
    var squareA := SumOfProducts(a, a);
    var squareB := SumOfProducts(b, b);
    similarity := Quotient(dotProduct, sqrt(squareA), sqrt(squareB), squareA, squareB);
  }

  /** `a.reduce((sum, x, i) => sum + x * b[i], 0)` */
  method SumOfProducts(a: Vector, b: Vector) returns (sum: real)
    requires |a| == |b|
    ensures sum == Dot(a, b)
  {
    hide Product;
    sum := 0.0;
    for i := 0 to |a|
      invariant sum == Dot(a[..i], b[..i])
    {
      assert a[..i + 1][..i] == a[..i] && b[..i + 1][..i] == b[..i];
      sum := sum + Product(a[i], b[i]);
    }
    assert a[..|a|] == a && b[..|b|] == b;
  }

  method Quotient(dot: real, x: real, y: real, ghost xx: real, ghost yy: real) returns (q: real)
    requires x > 0.0 && y > 0.0 && Product(x, x) == xx && Product(y, y) == yy
    requires Product(dot, dot) <= Product(xx, yy)
    ensures Product(q, Product(x, y)) == dot
    ensures -1.0 <= q <= 1.0
  {
    Positive(x, y);
    q := dot / (x * y);
    QuotientTimes(dot, x * y);
    SquareOfProduct(x, y);
    BoundedQuotient(q, x * y, dot);
  }

  lemma Positive(x: real, y: real)
    requires x > 0.0 && y > 0.0
    ensures x * y > 0.0
  {
  }

  lemma QuotientTimes(a: real, b: real)
    requires b != 0.0
    ensures a / b * b == a
  {
  }

  lemma SquareOfProduct(x: real, y: real)
    ensures (x * x) * (y * y) == (x * y) * (x * y)
  {
  }

  lemma SquareLess(a: real, b: real)
    requires b > 0.0 && (a > b || a < -b)
    ensures a * a > b * b
  {
    if a > b {
      assert a * a - b * b == (a - b) * (a + b);
      Positive(a - b, a + b);
    } else {
      assert a * a - b * b == (-a - b) * (b - a);
      Positive(-a - b, b - a);
    }
  }

  lemma BoundedQuotient(q: real, m: real, dot: real)
    requires m > 0.0 && q * m == dot && dot * dot <= m * m
    ensures -1.0 <= q <= 1.0
  {
    if q > 1.0 {
      Positive(q - 1.0, m);
      assert q * m == (q - 1.0) * m + m;
      SquareLess(dot, m);
    }
    if q < -1.0 {
      Positive(-1.0 - q, m);
      assert q * m == -((-1.0 - q) * m) - m;
      SquareLess(dot, m);
    }
  }

  /** `p * a + q * b`, dimension by dimension. */
  function Combine(p: real, a: Vector, q: real, b: Vector): (c: Vector)
    requires |a| == |b|
    ensures |c| == |a|
  {
    if |a| == 0 then []
    else
      Combine(p, a[..|a| - 1], q, b[..|b| - 1])
      + [Product(p, a[|a| - 1]) + Product(q, b[|b| - 1])]
  }

  lemma PositiveProduct(x: real, y: real)
    requires x > 0.0 && y > 0.0
    ensures Product(x, y) > 0.0
  {
    Positive(x, y);
  }

  lemma Opposites(x: real)
    ensures Product(x, x) == Product(-x, -x)
  {
  }

  lemma ZeroProduct(x: real)
    ensures Product(x, 0.0) == 0.0
  {
  }

  lemma Square(x: real)
    ensures if x == 0.0 then Product(x, x) == 0.0 else Product(x, x) > 0.0
  {
    ZeroProduct(x);
    hide Product;
    if x > 0.0 {
      PositiveProduct(x, x);
    } else if x < 0.0 {
      PositiveProduct(-x, -x);
      Opposites(x);
    }
  }

  lemma {:induction false} NormNonNegative(a: Vector)
    ensures Dot(a, a) >= 0.0
  {
    hide Product;
    if a != [] {
      NormNonNegative(a[..|a| - 1]);
      Square(a[|a| - 1]);
    }
  }

  /** The square of `p * a + q * b`, from the three products. */
  function Quadratic(p: real, q: real, aa: real, ab: real, bb: real): real {
    p * p * aa + 2.0 * p * q * ab + q * q * bb
  }

  lemma Expand(p: real, x: real, q: real, y: real)
    ensures (p * x + q * y) * (p * x + q * y) == p * p * (x * x) + 2.0 * p * q * (x * y) + q * q * (y * y)
  {
  }

  lemma Distribute(p: real, q: real, a: real, d: real, b: real, x: real, y: real, z: real)
    ensures p * p * (a + x) + 2.0 * p * q * (d + y) + q * q * (b + z)
         == (p * p * a + 2.0 * p * q * d + q * q * b) + (p * p * x + 2.0 * p * q * y + q * q * z)
  {
  }

  lemma CombineStep(p: real, q: real, aa: real, ab: real, bb: real, x: real, y: real)
    ensures Quadratic(p, q, aa, ab, bb) + Product(Product(p, x) + Product(q, y), Product(p, x) + Product(q, y))
         == Quadratic(p, q, aa + Product(x, x), ab + Product(x, y), bb + Product(y, y))
  {
    Expand(p, x, q, y);
    Distribute(p, q, aa, ab, bb, x * x, x * y, y * y);
  }

  lemma {:induction false} CombineNorm(p: real, a: Vector, q: real, b: Vector)
    requires |a| == |b|
    ensures var c := Combine(p, a, q, b); Dot(c, c) == Quadratic(p, q, Dot(a, a), Dot(a, b), Dot(b, b))
  {
    hide Quadratic, Product;
    if a == [] {
      assert Quadratic(p, q, 0.0, 0.0, 0.0) == 0.0 by { NoQuadratic(p, q); }
    } else {
      var x, y := a[|a| - 1], b[|b| - 1];
      CombineNorm(p, a[..|a| - 1], q, b[..|b| - 1]);
      var c := Combine(p, a, q, b);
      assert c[..|c| - 1] == Combine(p, a[..|a| - 1], q, b[..|b| - 1]);
      CombineStep(p, q, Dot(a[..|a| - 1], a[..|a| - 1]), Dot(a[..|a| - 1], b[..|b| - 1]),
                  Dot(b[..|b| - 1], b[..|b| - 1]), x, y);
    }
  }

  lemma NoQuadratic(p: real, q: real)
    ensures Quadratic(p, q, 0.0, 0.0, 0.0) == 0.0
  {
  }

  lemma {:induction false} ZeroNorm(a: Vector, b: Vector)
    requires |a| == |b| && Dot(b, b) == 0.0
    ensures Dot(a, b) == 0.0
  {
    hide Product;
    if a != [] {
      NormNonNegative(b[..|b| - 1]);
      Square(b[|b| - 1]);
      ZeroProduct(a[|a| - 1]);
      ZeroNorm(a[..|a| - 1], b[..|b| - 1]);
    }
  }

  lemma Discriminant(aa: real, ab: real, bb: real)
    requires bb > 0.0 && Quadratic(bb, -ab, aa, ab, bb) >= 0.0
    ensures ab * ab <= aa * bb
  {
    var e := aa * bb - ab * ab;
    assert Quadratic(bb, -ab, aa, ab, bb) == bb * e by { Factor(aa, bb, ab); }
    if e < 0.0 { Positive(bb, -e); }
  }

  lemma Factor(a: real, b: real, d: real)
    ensures b * b * a + 2.0 * b * (-d) * d + (-d) * (-d) * b == b * (a * b - d * d)
  {
  }

  /** The squared dot product is at most the product of the squared norms. */
  lemma CauchySchwarz(a: Vector, b: Vector)
    requires |a| == |b|
    ensures Product(Dot(a, b), Dot(a, b)) <= Product(Dot(a, a), Dot(b, b))
  {
    hide Dot, Combine, Quadratic;
    NormNonNegative(b);
    if Dot(b, b) == 0.0 {
      ZeroNorm(a, b);
    } else {
      CombineNorm(Dot(b, b), a, -Dot(a, b), b);
      NormNonNegative(Combine(Dot(b, b), a, -Dot(a, b), b));
      Discriminant(Dot(a, a), Dot(a, b), Dot(b, b));
    }
  }

  // ----- Centroids

  /** A clustered suggestion's cluster number and embedding. */
  datatype Labelled = Labelled(cluster: nat, embedding: Vector)

  datatype Cluster = Cluster(id: nat, embeddings: seq<Vector>)

  /** `clusters[id].push(v)`; the properties of an object with integer keys are in ascending order. */
  function PushTo(clusters: seq<Cluster>, id: nat, v: Vector): seq<Cluster> {
    if clusters == [] || id < clusters[0].id then [Cluster(id, [v])] + clusters
    else if clusters[0].id == id then [Cluster(id, clusters[0].embeddings + [v])] + clusters[1..]
    else [clusters[0]] + PushTo(clusters[1..], id, v)
  }

  function GroupByCluster(suggestions: seq<Labelled>): seq<Cluster> {
    if suggestions == [] then []
    else
      var last := suggestions[|suggestions| - 1];
      PushTo(GroupByCluster(suggestions[..|suggestions| - 1]), last.cluster, last.embedding)
  }

  /** The embeddings of one cluster, in order. */
  function Members(suggestions: seq<Labelled>, id: nat): seq<Vector> {
    if suggestions == [] then []
    else
      Members(suggestions[..|suggestions| - 1], id)
      + if suggestions[|suggestions| - 1].cluster == id then [suggestions[|suggestions| - 1].embedding] else []
  }

  function EmbeddingsOf(clusters: seq<Cluster>, id: nat): seq<Vector> {
    if clusters == [] then []
    else if clusters[0].id == id then clusters[0].embeddings
    else EmbeddingsOf(clusters[1..], id)
  }

  predicate Ascending(clusters: seq<Cluster>) {
    clusters != [] ==>
      Ascending(clusters[1..]) && (|clusters| > 1 ==> clusters[0].id < clusters[1].id)
  }

  lemma {:induction false} AscendingAbsent(clusters: seq<Cluster>, id: nat)
    requires Ascending(clusters) && (clusters != [] ==> id < clusters[0].id)
    ensures EmbeddingsOf(clusters, id) == []
  {
    if clusters != [] {
      AscendingAbsent(clusters[1..], id);
    }
  }

  predicate NonEmptyClusters(clusters: seq<Cluster>) {
    forall c | c in clusters :: c.embeddings != []
  }

  lemma {:induction false} PushEffect(clusters: seq<Cluster>, id: nat, v: Vector, x: nat)
    requires Ascending(clusters) && NonEmptyClusters(clusters)
    ensures var r := PushTo(clusters, id, v);
            && Ascending(r) && NonEmptyClusters(r) && r != []
            && (r[0].id == id || (clusters != [] && r[0].id == clusters[0].id))
            && EmbeddingsOf(r, x) == EmbeddingsOf(clusters, x) + if x == id then [v] else []
  {
    var r := PushTo(clusters, id, v);
    if clusters == [] || id < clusters[0].id {
      AscendingAbsent(clusters, id);
      assert r[1..] == clusters;
    } else if clusters[0].id == id {
      assert r[1..] == clusters[1..];
      assert clusters[0] in clusters && forall c | c in clusters[1..] :: c in clusters;
    } else {
      assert clusters[0] in clusters && forall c | c in clusters[1..] :: c in clusters;
      PushEffect(clusters[1..], id, v, x);
      assert r[1..] == PushTo(clusters[1..], id, v);
    }
  }

  /** Grouping gives every cluster its members, in order; no cluster is empty or listed twice. */
  lemma {:induction false} GroupingIsExact(suggestions: seq<Labelled>, id: nat)
    ensures var clusters := GroupByCluster(suggestions);
            && Ascending(clusters) && NonEmptyClusters(clusters)
            && EmbeddingsOf(clusters, id) == Members(suggestions, id)
  {
    hide Ascending, NonEmptyClusters;
    if suggestions == [] {
      assert Ascending([]) && NonEmptyClusters([]) by { NoClusters(); }
    } else {
      var init, last := suggestions[..|suggestions| - 1], suggestions[|suggestions| - 1];
      GroupingIsExact(init, id);
      PushEffect(GroupByCluster(init), last.cluster, last.embedding, id);
    }
  }

  lemma NoClusters()
    ensures Ascending([]) && NonEmptyClusters([])
  {
  }

  /** The sum of one dimension. */
  function ColumnSum(vectors: seq<Vector>, i: nat): real
    requires forall v | v in vectors :: i < |v|
  {
    if vectors == [] then 0.0
    else
      assert vectors[|vectors| - 1] in vectors;
      ColumnSum(vectors[..|vectors| - 1], i) + vectors[|vectors| - 1][i]
  }

  predicate Dimensions(vectors: seq<Vector>, n: nat) {
    forall v | v in vectors :: |v| == n
  }

  method AddEmbedding(centroid: array<real>, vectors: seq<Vector>, v: Vector)
    requires centroid.Length == |v| && Dimensions(vectors, |v|)
    requires forall i | 0 <= i < |v| :: centroid[i] == ColumnSum(vectors, i)
    modifies centroid
    ensures Dimensions(vectors + [v], |v|)
    ensures forall i | 0 <= i < |v| :: centroid[i] == ColumnSum(vectors + [v], i)
  {
    assert (vectors + [v])[..|vectors|] == vectors;
    for i := 0 to |v|
      invariant forall j | 0 <= j < i :: centroid[j] == ColumnSum(vectors + [v], j)
      invariant forall j | i <= j < |v| :: centroid[j] == ColumnSum(vectors, j)
    {
      centroid[i] := centroid[i] + v[i];
    }
  }

  method Divide(centroid: array<real>, size: real)
    requires size > 0.0
    modifies centroid
    ensures forall i | 0 <= i < centroid.Length :: centroid[i] * size == old(centroid[i])
  {
    for i := 0 to centroid.Length
      invariant forall j | 0 <= j < i :: centroid[j] * size == old(centroid[j])
      invariant forall j | i <= j < centroid.Length :: centroid[j] == old(centroid[j])
    {
      QuotientTimes(centroid[i], size);
      centroid[i] := centroid[i] / size;
    }
  }

  /** The mean of a cluster's embeddings: times the size it is their sum, in every dimension. */
  method Centroid(embeddings: seq<Vector>, n: nat) returns (centroid: array<real>)
    requires embeddings != [] && Dimensions(embeddings, n)
    ensures fresh(centroid) && centroid.Length == n
    ensures forall i | 0 <= i < n :: centroid[i] * (|embeddings| as real) == ColumnSum(embeddings, i)
  {
    hide ColumnSum;
    centroid := new real[n](_ => 0.0);
    assert forall i: nat | i < n :: ColumnSum([], i) == 0.0 by { EmptySum(); }
    for k := 0 to |embeddings|
      invariant Dimensions(embeddings[..k], n)
      invariant forall i | 0 <= i < n :: centroid[i] == ColumnSum(embeddings[..k], i)
    {
      assert embeddings[..k + 1] == embeddings[..k] + [embeddings[k]] && embeddings[k] in embeddings;
      AddEmbedding(centroid, embeddings[..k], embeddings[k]);
    }
    assert embeddings[..|embeddings|] == embeddings;
    Divide(centroid, |embeddings| as real);
  }

  lemma EmptySum()
    ensures forall i: nat :: ColumnSum([], i) == 0.0
  {
  }

  // ----- Conservation over all clusters

  predicate SameLength(suggestions: seq<Labelled>, n: nat) {
    forall s | s in suggestions :: |s.embedding| == n
  }

  function Embeddings(suggestions: seq<Labelled>): seq<Vector> {
    if suggestions == [] then []
    else Embeddings(suggestions[..|suggestions| - 1]) + [suggestions[|suggestions| - 1].embedding]
  }

  predicate AllDimensions(clusters: seq<Cluster>, n: nat) {
    forall c | c in clusters :: Dimensions(c.embeddings, n)
  }

  /** The sum over clusters of what their centroids weigh in one dimension. */
  function ClusterSums(clusters: seq<Cluster>, n: nat, i: nat): real
    requires AllDimensions(clusters, n) && i < n
  {
    if clusters == [] then 0.0
    else
      assert clusters[0] in clusters && forall c | c in clusters[1..] :: c in clusters;
      ColumnSum(clusters[0].embeddings, i) + ClusterSums(clusters[1..], n, i)
  }

  function Sizes(clusters: seq<Cluster>): nat {
    if clusters == [] then 0 else |clusters[0].embeddings| + Sizes(clusters[1..])
  }

  lemma {:induction false} PushConserves(clusters: seq<Cluster>, id: nat, v: Vector, n: nat, i: nat)
    requires AllDimensions(clusters, n) && |v| == n && i < n
    ensures AllDimensions(PushTo(clusters, id, v), n)
    ensures ClusterSums(PushTo(clusters, id, v), n, i) == ClusterSums(clusters, n, i) + v[i]
    ensures Sizes(PushTo(clusters, id, v)) == Sizes(clusters) + 1
  {
    var r := PushTo(clusters, id, v);
    if clusters == [] || id < clusters[0].id {
      assert r[1..] == clusters && [v][..0] == [];
      assert ColumnSum([v], i) == v[i];
    } else {
      var head, rest := clusters[0], clusters[1..];
      assert head in clusters && forall c | c in rest :: c in clusters;
      if head.id == id {
        assert r[1..] == rest;
        var grown := head.embeddings + [v];
        assert grown[..|grown| - 1] == head.embeddings;
        assert Dimensions(grown, n);
      } else {
        PushConserves(rest, id, v, n, i);
        assert r[1..] == PushTo(rest, id, v);
      }
    }
  }

  /** The clusters partition the suggestions: their sizes add up to the number of suggestions, and their
      sums to the sum over all, in every dimension. */
  lemma {:induction false} ClustersPartition(suggestions: seq<Labelled>, n: nat, i: nat)
    requires i < n && SameLength(suggestions, n)
    ensures AllDimensions(GroupByCluster(suggestions), n) && Dimensions(Embeddings(suggestions), n)
    ensures Sizes(GroupByCluster(suggestions)) == |suggestions|
    ensures ClusterSums(GroupByCluster(suggestions), n, i) == ColumnSum(Embeddings(suggestions), i)
  {
    if suggestions != [] {
      var init, last := suggestions[..|suggestions| - 1], suggestions[|suggestions| - 1];
      assert last in suggestions && forall s | s in init :: s in suggestions;
      ClustersPartition(init, n, i);
      hide PushTo, ClusterSums, Sizes, ColumnSum, AllDimensions;
      PushConserves(GroupByCluster(init), last.cluster, last.embedding, n, i);
      ColumnSnoc(Embeddings(init), last.embedding, i);
    } else {
      NoSums(n, i);
    }
  }

  lemma NoSums(n: nat, i: nat)
    requires i < n
    ensures AllDimensions([], n) && ClusterSums([], n, i) == ColumnSum([], i) && Sizes([]) == 0
  {
  }

  lemma ColumnSnoc(vectors: seq<Vector>, v: Vector, i: nat)
    requires (forall w | w in vectors :: i < |w|) && i < |v|
    ensures (forall w | w in vectors + [v] :: i < |w|)
    ensures ColumnSum(vectors + [v], i) == ColumnSum(vectors, i) + v[i]
  {
    assert (vectors + [v])[..|vectors|] == vectors;
  }

  // ----- All centroids

  datatype Mean = Mean(id: nat, vector: Vector)

  /** In every dimension the mean, times the number of members, is the members' sum. */
  ghost predicate IsMean(mean: Mean, members: seq<Vector>, n: nat) {
    && members != [] && Dimensions(members, n) && |mean.vector| == n
    && forall i | 0 <= i < n :: mean.vector[i] * (|members| as real) == ColumnSum(members, i)
  }

  lemma {:induction false} MemberDimensions(suggestions: seq<Labelled>, id: nat, n: nat)
    requires SameLength(suggestions, n)
    ensures Dimensions(Members(suggestions, id), n)
  {
    if suggestions != [] {
      var init, last := suggestions[..|suggestions| - 1], suggestions[|suggestions| - 1];
      assert last in suggestions && forall s | s in init :: s in suggestions;
      MemberDimensions(init, id, n);
    }
  }

  lemma {:induction false} EmbeddingsAt(clusters: seq<Cluster>, k: nat)
    requires Ascending(clusters) && k < |clusters|
    ensures EmbeddingsOf(clusters, clusters[k].id) == clusters[k].embeddings && clusters[0].id <= clusters[k].id
    ensures k > 0 ==> clusters[0].id < clusters[k].id
  {
    if k > 0 {
      EmbeddingsAt(clusters[1..], k - 1);
    }
  }

  predicate Listed(clusters: seq<Cluster>, id: nat) {
    exists c | c in clusters :: c.id == id
  }

  lemma {:induction false} ListedOrEmpty(clusters: seq<Cluster>, id: nat)
    ensures EmbeddingsOf(clusters, id) != [] ==> Listed(clusters, id)
  {
    if clusters != [] {
      assert clusters[0] in clusters && forall c | c in clusters[1..] :: c in clusters;
      if clusters[0].id != id { ListedOrEmpty(clusters[1..], id); }
    }
  }

  method GroupEmbeddings(suggestions: seq<Labelled>) returns (clusters: seq<Cluster>)
    ensures clusters == GroupByCluster(suggestions)
  {
    clusters := [];
    for k := 0 to |suggestions|
      invariant clusters == GroupByCluster(suggestions[..k])
    {
      assert suggestions[..k + 1][..k] == suggestions[..k];
      clusters := PushTo(clusters, suggestions[k].cluster, suggestions[k].embedding);
    }
    assert suggestions[..|suggestions|] == suggestions;
  }

  /** The clusters' means, in the order of the clusters. */
  ghost predicate AreMeans(means: seq<Mean>, clusters: seq<Cluster>, n: nat) {
    && |means| == |clusters|
    && forall k | 0 <= k < |means| ::
         means[k].id == clusters[k].id && IsMean(means[k], clusters[k].embeddings, n)
  }

  lemma MeanOf(mean: Mean, members: seq<Vector>, n: nat)
    requires members != [] && Dimensions(members, n) && |mean.vector| == n
    requires forall i | 0 <= i < n :: mean.vector[i] * (|members| as real) == ColumnSum(members, i)
    ensures IsMean(mean, members, n)
  {
  }

  method MeansOf(clusters: seq<Cluster>, n: nat) returns (means: seq<Mean>)
    requires forall c | c in clusters :: c.embeddings != [] && Dimensions(c.embeddings, n)
    ensures AreMeans(means, clusters, n)
  {
    hide IsMean;
    means := [];
    for k := 0 to |clusters|
      invariant AreMeans(means, clusters[..k], n)
    {
      assert clusters[k] in clusters;
      var centroid := Centroid(clusters[k].embeddings, n);
      MeanOf(Mean(clusters[k].id, centroid[..]), clusters[k].embeddings, n);
      means := means + [Mean(clusters[k].id, centroid[..])];
    }
    assert clusters[..|clusters|] == clusters;
  }

  lemma ClusterMembers(suggestions: seq<Labelled>, n: nat, k: nat)
    requires k < |GroupByCluster(suggestions)| && SameLength(suggestions, n)
    ensures var c := GroupByCluster(suggestions)[k];
            c.embeddings == Members(suggestions, c.id) && c.embeddings != [] && Dimensions(c.embeddings, n)
  {
    var clusters := GroupByCluster(suggestions);
    GroupingIsExact(suggestions, clusters[k].id);
    EmbeddingsAt(clusters, k);
    MemberDimensions(suggestions, clusters[k].id, n);
    assert clusters[k] in clusters;
  }

  lemma ClustersMembers(suggestions: seq<Labelled>, n: nat)
    requires SameLength(suggestions, n)
    ensures forall c | c in GroupByCluster(suggestions) ::
              c.embeddings == Members(suggestions, c.id) && c.embeddings != [] && Dimensions(c.embeddings, n)
  {
    var clusters := GroupByCluster(suggestions);
    forall c | c in clusters
      ensures c.embeddings == Members(suggestions, c.id) && c.embeddings != [] && Dimensions(c.embeddings, n)
    {
      var k :| 0 <= k < |clusters| && clusters[k] == c;
      ClusterMembers(suggestions, n, k);
    }
  }

  /** The mean of a cluster's embeddings. */
  function MeanVector(embeddings: seq<Vector>, n: nat): Vector
    requires embeddings != [] && Dimensions(embeddings, n)
  {
    seq(n, i requires 0 <= i < n => ColumnSum(embeddings, i) / (|embeddings| as real))
  }

  /** The means of all clusters, in ascending order of the clusters. */
  function CentroidsOf(suggestions: seq<Labelled>, n: nat): (r: seq<Mean>)
    requires SameLength(suggestions, n)
  {
    var clusters := GroupByCluster(suggestions);
    ClustersMembers(suggestions, n);
    seq(|clusters|, k requires 0 <= k < |clusters| =>
          assert clusters[k] in clusters;
          Mean(clusters[k].id, MeanVector(clusters[k].embeddings, n)))
  }

  lemma DivideOut(x: real, size: real, sum: real)
    requires size > 0.0 && x * size == sum
    ensures x == sum / size
  {
  }

  /** There is only one mean. */
  lemma TheMean(mean: Mean, members: seq<Vector>, n: nat)
    requires IsMean(mean, members, n)
    ensures mean.vector == MeanVector(members, n)
  {
    hide ColumnSum;
    var r := MeanVector(members, n);
    forall i | 0 <= i < n ensures mean.vector[i] == r[i] {
      DivideOut(mean.vector[i], |members| as real, ColumnSum(members, i));
    }
  }

  lemma MeanTimesSize(mean: Mean, members: seq<Vector>, n: nat)
    requires members != [] && Dimensions(members, n) && mean.vector == MeanVector(members, n)
    ensures IsMean(mean, members, n)
  {
    hide ColumnSum;
    forall i | 0 <= i < n ensures mean.vector[i] * (|members| as real) == ColumnSum(members, i) {
      QuotientTimes(ColumnSum(members, i), |members| as real);
    }
  }

  lemma TheMeans(means: seq<Mean>, suggestions: seq<Labelled>, n: nat)
    requires SameLength(suggestions, n) && AreMeans(means, GroupByCluster(suggestions), n)
    ensures means == CentroidsOf(suggestions, n)
  {
    hide GroupByCluster, IsMean, MeanVector;
    ClustersMembers(suggestions, n);
    var clusters, r := GroupByCluster(suggestions), CentroidsOf(suggestions, n);
    forall k | 0 <= k < |means| ensures means[k] == r[k] {
      assert clusters[k] in clusters;
      TheMean(means[k], clusters[k].embeddings, n);
    }
  }

  /** Every cluster with members, and no other, gets one centroid, in ascending order: the mean of its
      members. */
  method CalculateClusterCentroids(suggestions: seq<Labelled>, n: nat) returns (centroids: seq<Mean>)
    requires SameLength(suggestions, n)
    ensures centroids == CentroidsOf(suggestions, n)
    ensures forall k | 0 <= k < |centroids| :: IsMean(centroids[k], Members(suggestions, centroids[k].id), n)
    ensures forall j, k | 0 <= j < k < |centroids| :: centroids[j].id < centroids[k].id
    ensures forall s | s in suggestions :: exists m | m in centroids :: m.id == s.cluster
  {
    var clusters := GroupEmbeddings(suggestions);
    hide IsMean, Members, EmbeddingsOf, GroupByCluster, MeanVector;
    ClustersMembers(suggestions, n);
    centroids := MeansOf(clusters, n);
    TheMeans(centroids, suggestions, n);
    AscendingIds(suggestions);
    AllListed(suggestions);
    forall s | s in suggestions ensures exists m | m in centroids :: m.id == s.cluster {
      var c :| c in clusters && c.id == s.cluster;
      var k :| 0 <= k < |clusters| && clusters[k] == c;
      assert centroids[k] in centroids;
    }
  }

  lemma AscendingIds(suggestions: seq<Labelled>)
    ensures var c := GroupByCluster(suggestions); forall j, k | 0 <= j < k < |c| :: c[j].id < c[k].id
  {
    GroupingIsExact(suggestions, 0);
    var clusters := GroupByCluster(suggestions);
    hide GroupByCluster, EmbeddingsOf;
    forall j, k | 0 <= j < k < |clusters| ensures clusters[j].id < clusters[k].id {
      AscendingPair(clusters, j, k);
    }
  }

  lemma {:induction false} AscendingPair(clusters: seq<Cluster>, j: nat, k: nat)
    requires Ascending(clusters) && j < k < |clusters|
    ensures clusters[j].id < clusters[k].id
  {
    if j == 0 {
      EmbeddingsAt(clusters, k);
    } else {
      AscendingPair(clusters[1..], j - 1, k - 1);
    }
  }

  lemma AllListed(suggestions: seq<Labelled>)
    ensures forall s | s in suggestions :: Listed(GroupByCluster(suggestions), s.cluster)
  {
    hide GroupByCluster, EmbeddingsOf, Listed;
    forall s | s in suggestions ensures Listed(GroupByCluster(suggestions), s.cluster) {
      GroupingIsExact(suggestions, s.cluster);
      HasMembers(suggestions, s);
      ListedOrEmpty(GroupByCluster(suggestions), s.cluster);
    }
  }

  lemma {:induction false} HasMembers(suggestions: seq<Labelled>, s: Labelled)
    requires s in suggestions
    ensures Members(suggestions, s.cluster) != []
  {
    if suggestions[|suggestions| - 1] != s {
      HasMembers(suggestions[..|suggestions| - 1], s);
    }
  }
}
