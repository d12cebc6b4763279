/** Propagation of events through the bridges: where every event comes from, and that forwarding ends
    exactly if the bridges form no cycle. */
module Propagation {
  import opened Text
  import opened Bridges

  // ----- Runs: the kernels handle the events that have arrived, in any order

  function Handle(sys: System, arrived: seq<Item>, i: nat): seq<Item>
    requires i < |arrived|
  {
    arrived[..i] + arrived[i + 1..] + Emissions(sys, arrived[i])
  }

  predicate ValidRun(sys: System, arrived: seq<Item>, choices: seq<nat>)
    decreases |choices|
  {
    choices == []
    || (choices[0] < |arrived| && ValidRun(sys, Handle(sys, arrived, choices[0]), choices[1..]))
  }

  function After(sys: System, arrived: seq<Item>, choices: seq<nat>): seq<Item>
    requires ValidRun(sys, arrived, choices)
    decreases |choices|
  {
    if choices == [] then arrived else After(sys, Handle(sys, arrived, choices[0]), choices[1..])
  }

  // ----- Provenance

  /** A chain of hops. */
  ghost predicate Chain(sys: System, path: seq<Item>) {
    path != [] && forall i | 0 <= i < |path| - 1 :: Hop(sys, path[i], path[i + 1])
  }

  ghost predicate ComesFrom(sys: System, origins: seq<Item>, item: Item) {
    exists path: seq<Item> :: Chain(sys, path) && path[0] in origins && path[|path| - 1] == item
  }

  lemma ExtendChain(sys: System, origins: seq<Item>, a: Item, b: Item)
    requires ComesFrom(sys, origins, a) && Hop(sys, a, b)
    ensures ComesFrom(sys, origins, b)
  {
    hide Hop;
    var path: seq<Item> :| Chain(sys, path) && path[0] in origins && path[|path| - 1] == a;
    var longer := path + [b];
    assert Chain(sys, longer) && longer[0] in origins && longer[|longer| - 1] == b;
  }

  lemma OriginsComeFrom(sys: System, origins: seq<Item>)
    ensures forall x | x in origins :: ComesFrom(sys, origins, x)
  {
    hide Hop;
    forall x | x in origins ensures ComesFrom(sys, origins, x) {
      assert Chain(sys, [x]);
    }
  }

  /** Whatever arrives anywhere has a chain of matching bridges behind it, back to an original event. */
  lemma {:induction false} Provenance(sys: System, origins: seq<Item>, arrived: seq<Item>, choices: seq<nat>)
    requires forall x | x in arrived :: ComesFrom(sys, origins, x)
    requires ValidRun(sys, arrived, choices)
    ensures forall x | x in After(sys, arrived, choices) :: ComesFrom(sys, origins, x)
    decreases |choices|
  {
    hide ComesFrom, Emissions, Hop;
    if choices != [] {
      var i := choices[0];
      var next := Handle(sys, arrived, i);
      forall x | x in next ensures ComesFrom(sys, origins, x) {
        if x in Emissions(sys, arrived[i]) {
          EmissionsAreHops(sys, arrived[i], x);
          ExtendChain(sys, origins, arrived[i], x);
        }
      }
      Provenance(sys, origins, next, choices[1..]);
    }
  }

  lemma EveryEventHasAnOrigin(sys: System, origins: seq<Item>, choices: seq<nat>)
    requires ValidRun(sys, origins, choices)
    ensures forall x | x in After(sys, origins, choices) :: ComesFrom(sys, origins, x)
  {
    hide ComesFrom;
    OriginsComeFrom(sys, origins);
    Provenance(sys, origins, origins, choices);
  }

  // ----- The bridge graph

  ghost predicate Edge(table: seq<Bridge>, a: string, b: string) {
    exists i | 0 <= i < |table| :: table[i].source == a && table[i].target == b
  }

  ghost predicate Path(table: seq<Bridge>, p: seq<string>) {
    |p| >= 2 && forall i | 0 <= i < |p| - 1 :: Edge(table, p[i], p[i + 1])
  }

  ghost predicate Reaches(table: seq<Bridge>, a: string, b: string) {
    exists p: seq<string> :: Path(table, p) && p[0] == a && p[|p| - 1] == b
  }

  ghost predicate Acyclic(table: seq<Bridge>) {
    forall n: string :: !Reaches(table, n, n)
  }

  lemma EdgeReaches(table: seq<Bridge>, a: string, b: string)
    requires Edge(table, a, b)
    ensures Reaches(table, a, b)
  {
    assert Path(table, [a, b]);
  }

  lemma PrependReaches(table: seq<Bridge>, a: string, b: string, c: string)
    requires Edge(table, a, b) && Reaches(table, b, c)
    ensures Reaches(table, a, c)
  {
    hide Edge;
    var p: seq<string> :| Path(table, p) && p[0] == b && p[|p| - 1] == c;
    var q := [a] + p;
    assert Path(table, q) && q[0] == a && q[|q| - 1] == c;
  }

  /** The targets of the bridges. */
  function TargetsOf(table: seq<Bridge>): set<string> {
    set i | 0 <= i < |table| :: table[i].target
  }

  lemma ReachedIsTarget(table: seq<Bridge>, a: string, b: string)
    requires Reaches(table, a, b)
    ensures b in TargetsOf(table)
  {
    var p: seq<string> :| Path(table, p) && p[0] == a && p[|p| - 1] == b;
    assert Edge(table, p[|p| - 2], p[|p| - 2 + 1]);
  }

  /** How many namespaces can still be reached. */
  ghost function Rank(table: seq<Bridge>, n: string): nat {
    |set m | m in TargetsOf(table) && Reaches(table, n, m)|
  }

  lemma {:induction false} ProperSubsetSize(a: set<string>, b: set<string>)
    requires a < b
    ensures |a| < |b|
  {
    if a != {} {
      var x :| x in a;
      ProperSubsetSize(a - {x}, b - {x});
    }
  }

  lemma EdgeLowersRank(table: seq<Bridge>, a: string, b: string)
    requires Acyclic(table) && Edge(table, a, b)
    ensures Rank(table, b) < Rank(table, a)
  {
    hide Edge, Reaches, TargetsOf;
    var below := set m | m in TargetsOf(table) && Reaches(table, b, m);
    var above := set m | m in TargetsOf(table) && Reaches(table, a, m);
    EdgeReaches(table, a, b);
    ReachedIsTarget(table, a, b);
    forall m | m in below ensures m in above {
      PrependReaches(table, a, b, m);
    }
    assert b in above && b !in below;
    ProperSubsetSize(below, above);
  }

  // ----- Termination

  function Power(b: nat, e: nat): (p: nat)
    requires b >= 1
    ensures p >= 1
  {
    if e == 0 then 1 else b * Power(b, e - 1)
  }

  /** What the handling of one event can cost in the end. */
  ghost function Weight(sys: System, item: Item): nat {
    Power(|sys.table| + 1, Rank(sys.table, item.namespace))
  }

  ghost function Measure(sys: System, items: seq<Item>): nat {
    if items == [] then 0 else Measure(sys, items[..|items| - 1]) + Weight(sys, items[|items| - 1])
  }

  lemma {:induction false} MeasureAppend(sys: System, a: seq<Item>, b: seq<Item>)
    ensures Measure(sys, a + b) == Measure(sys, a) + Measure(sys, b)
  {
    hide Weight;
    if b == [] {
      assert a + b == a;
    } else {
      assert (a + b)[..|a + b| - 1] == a + b[..|b| - 1];
      MeasureAppend(sys, a, b[..|b| - 1]);
    }
  }

  lemma {:induction false} PowerMonotone(b: nat, x: nat, y: nat)
    requires b >= 1 && x <= y
    ensures Power(b, x) <= Power(b, y)
  {
    if x < y {
      PowerMonotone(b, x, y - 1);
      assert b * Power(b, y - 1) >= Power(b, y - 1);
    }
  }

  lemma {:induction false} MeasureBound(sys: System, items: seq<Item>, w: nat)
    requires forall x | x in items :: Weight(sys, x) <= w
    ensures Measure(sys, items) <= |items| * w
  {
    hide Weight;
    if items != [] {
      assert items[|items| - 1] in items && forall x | x in items[..|items| - 1] :: x in items;
      MeasureBound(sys, items[..|items| - 1], w);
      assert |items| * w == (|items| - 1) * w + w;
    }
  }

  lemma {:induction false} EmissionCount(sys: System, bridges: seq<Bridge>, source: string, event: Event)
    ensures |EmissionsOf(sys, bridges, source, event)| <= |bridges|
  {
    if bridges != [] {
      EmissionCount(sys, bridges[..|bridges| - 1], source, event);
    }
  }

  lemma HopIsEdge(sys: System, a: Item, b: Item)
    requires Hop(sys, a, b)
    ensures Edge(sys.table, a.namespace, b.namespace)
  {
    var i :| 0 <= i < |sys.table| && Relay(sys, sys.table[i], a.namespace, a.event) == Some(b);
    assert sys.table[i].source == a.namespace && sys.table[i].target == b.namespace;
  }

  /** All that one event sets off weighs less than the event. */
  lemma EmissionsWeighLess(sys: System, item: Item)
    requires Acyclic(sys.table)
    ensures Measure(sys, Emissions(sys, item)) < Weight(sys, item)
  {
    hide Acyclic, Rank, Emissions, Measure, Weight;
    var e, n := Emissions(sys, item), |sys.table|;
    if e == [] {
      assert Measure(sys, e) == 0 by { NoMeasure(sys); }
      assert Weight(sys, item) > 0 by { WeightOf(sys, item); }
    } else {
      var r := Rank(sys.table, item.namespace);
      forall x | x in e ensures r >= 1 && Weight(sys, x) <= Power(n + 1, r - 1) {
        EmissionLighter(sys, item, x);
      }
      assert e[0] in e;
      MeasureBound(sys, e, Power(n + 1, r - 1));
      assert |e| <= n by { CountEmissions(sys, item); }
      WeightOf(sys, item);
      LessThanNext(|e|, n, Power(n + 1, r - 1));
    }
  }

  lemma NoMeasure(sys: System)
    ensures Measure(sys, []) == 0
  {
  }

  lemma WeightOf(sys: System, item: Item)
    ensures Weight(sys, item) == Power(|sys.table| + 1, Rank(sys.table, item.namespace)) > 0
    ensures Rank(sys.table, item.namespace) > 0
      ==> Weight(sys, item) == (|sys.table| + 1) * Power(|sys.table| + 1, Rank(sys.table, item.namespace) - 1)
  {
    hide Rank;
  }

  lemma CountEmissions(sys: System, item: Item)
    ensures |Emissions(sys, item)| <= |sys.table|
  {
    EmissionCount(sys, sys.table, item.namespace, item.event);
  }

  lemma EmissionLighter(sys: System, item: Item, x: Item)
    requires Acyclic(sys.table) && x in Emissions(sys, item)
    ensures var r := Rank(sys.table, item.namespace); r >= 1 && Weight(sys, x) <= Power(|sys.table| + 1, r - 1)
  {
    hide Acyclic, Rank, Edge, Emissions, Hop, Power;
    EmissionsAreHops(sys, item, x);
    HopIsEdge(sys, item, x);
    EdgeLowersRank(sys.table, item.namespace, x.namespace);
    PowerMonotone(|sys.table| + 1, Rank(sys.table, x.namespace), Rank(sys.table, item.namespace) - 1);
  }

  lemma LessThanNext(count: nat, n: nat, w: nat)
    requires count <= n && w > 0
    ensures count * w < (n + 1) * w
  {
    assert (n + 1) * w - count * w == (n + 1 - count) * w;
  }

  lemma HandleLowersMeasure(sys: System, arrived: seq<Item>, i: nat)
    requires Acyclic(sys.table) && i < |arrived|
    ensures Measure(sys, Handle(sys, arrived, i)) < Measure(sys, arrived)
  {
    hide Acyclic, Emissions, Weight, Measure;
    var a, b, e := arrived[..i], arrived[i + 1..], Emissions(sys, arrived[i]);
    EmissionsWeighLess(sys, arrived[i]);
    MeasureAppend(sys, a + b, e);
    MeasureAppend(sys, a, b);
    MeasureSplit(sys, arrived, i);
  }

  lemma MeasureSplit(sys: System, items: seq<Item>, i: nat)
    requires i < |items|
    ensures Measure(sys, items)
         == Measure(sys, items[..i]) + Weight(sys, items[i]) + Measure(sys, items[i + 1..])
  {
    hide Weight;
    var a, x, b := items[..i], items[i], items[i + 1..];
    assert items == (a + [x]) + b;
    MeasureAppend(sys, a + [x], b);
    assert (a + [x])[..|a + [x]| - 1] == a;
  }

  /** Over acyclic bridges no run is longer than the initial measure: propagation from any events ends. */
  lemma {:induction false} PropagationEnds(sys: System, arrived: seq<Item>, choices: seq<nat>)
    requires Acyclic(sys.table) && ValidRun(sys, arrived, choices)
    ensures |choices| <= Measure(sys, arrived)
    decreases |choices|
  {
    hide Acyclic, Measure, Handle;
    if choices != [] {
      HandleLowersMeasure(sys, arrived, choices[0]);
      PropagationEnds(sys, Handle(sys, arrived, choices[0]), choices[1..]);
    }
  }

  // ----- Cycles

  /** Bridges that forward everything between kernels that accept everything. */
  ghost predicate Transparent(sys: System) {
    && (forall i | 0 <= i < |sys.table| ::
          sys.table[i].pattern == "*" && Running(sys.kernels, sys.table[i].target)
          && forall e: Event :: sys.table[i].transform(e) == Some(e))
    && forall n: string, e: Event :: sys.accepts(n, e)
  }

  /** The first step of a cycle leads to a namespace on a cycle. */
  lemma NextOnCycle(table: seq<Bridge>, n: string) returns (m: string)
    requires Reaches(table, n, n)
    ensures Edge(table, n, m) && Reaches(table, m, m)
  {
    hide Edge;
    var p: seq<string> :| Path(table, p) && p[0] == n && p[|p| - 1] == n;
    m := p[1];
    var q := p[1..] + [m];
    forall i | 0 <= i < |q| - 1 ensures Edge(table, q[i], q[i + 1]) {
      if i < |p| - 2 {
        assert Edge(table, p[i + 1], p[i + 2]);
      } else {
        assert q[i] == n && q[i + 1] == m && Edge(table, p[0], p[1]);
      }
    }
    assert Path(table, q) && q[0] == m && q[|q| - 1] == m;
    assert Edge(table, p[0], p[0 + 1]);
  }

  lemma EdgeEmits(sys: System, item: Item, m: string)
    requires Transparent(sys) && Edge(sys.table, item.namespace, m)
    ensures Item(m, item.event) in Emissions(sys, item)
  {
    hide EmissionsOf;
    var i :| 0 <= i < |sys.table| && sys.table[i].source == item.namespace && sys.table[i].target == m;
    assert Relay(sys, sys.table[i], item.namespace, item.event) == Some(Item(m, item.event));
    EmissionsAreHops(sys, item, Item(m, item.event));
  }

  /** An event on a cycle keeps circulating: there are runs of every length. */
  lemma {:induction false} CyclesRunForever(sys: System, arrived: seq<Item>, item: Item, length: nat)
    returns (choices: seq<nat>)
    requires Transparent(sys) && item in arrived && Reaches(sys.table, item.namespace, item.namespace)
    ensures |choices| == length && ValidRun(sys, arrived, choices)
    decreases length
  {
    hide Transparent, Reaches, Edge, Emissions;
    if length == 0 {
      choices := [];
    } else {
      var i :| 0 <= i < |arrived| && arrived[i] == item;
      var m := NextOnCycle(sys.table, item.namespace);
      EdgeEmits(sys, item, m);
      var next := Handle(sys, arrived, i);
      var rest := CyclesRunForever(sys, next, Item(m, item.event), length - 1);
      choices := [i] + rest;
      assert choices[1..] == rest;
    }
  }

  ghost predicate NoLonger(sys: System, arrived: seq<Item>, bound: nat) {
    forall choices: seq<nat> :: ValidRun(sys, arrived, choices) ==> |choices| <= bound
  }

  /** Some bound on the length of all runs from `arrived`. */
  ghost predicate Ends(sys: System, arrived: seq<Item>) {
    exists bound: nat :: NoLonger(sys, arrived, bound)
  }

  /** Where everything is forwarded, propagation ends from all events exactly if the bridges are acyclic. */
  lemma EndsIffAcyclic(sys: System, event: Event)
    requires Transparent(sys)
    ensures (forall arrived: seq<Item> :: Ends(sys, arrived)) <==> Acyclic(sys.table)
  {
    hide ValidRun, Measure, Transparent;
    if Acyclic(sys.table) {
      hide Acyclic;
      forall arrived: seq<Item> ensures Ends(sys, arrived) {
        forall choices: seq<nat> | ValidRun(sys, arrived, choices) ensures |choices| <= Measure(sys, arrived) {
          PropagationEnds(sys, arrived, choices);
        }
        assert NoLonger(sys, arrived, Measure(sys, arrived));
      }
    } else {
      var n: string :| Reaches(sys.table, n, n);
      hide Reaches, Acyclic;
      var arrived := [Item(n, event)];
      if Ends(sys, arrived) {
        var bound: nat :| NoLonger(sys, arrived, bound);
        var choices := CyclesRunForever(sys, arrived, Item(n, event), bound + 1);
        assert false;
      }
    }
  }
}
