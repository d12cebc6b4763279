/** Cross-kernel event bridges: which events a manager forwards where, and when forwarding comes to an
    end. */
module Bridges {
  import opened Text
  import opened Json

  datatype Event = Event(eventType: string, data: Value)

  /** A configured bridge; `transform` is `None` where the source's callback throws, and the identity if
      there is no callback. */
  datatype Bridge = Bridge(
    source: string,
    target: string,
    pattern: string,
    transform: Event -> Option<Event>,
    logging: bool)

  datatype ManagedKernel = ManagedKernel(namespace: string, running: bool)

  datatype LogEntry = LogEntry(timestamp: int, source: string, target: string, eventType: string, success: bool)

  /** An event that has arrived at the kernel of a namespace. */
  datatype Item = Item(namespace: string, event: Event)

  // ----- The table of bridges

  function BridgeKey(b: Bridge): string {
    b.source + "->" + b.target
  }

  /** `eventBridges.set(key, b)`: a bridge with the same key is replaced where it stands. */
  function Install(table: seq<Bridge>, b: Bridge): seq<Bridge> {
    if table == [] then [b]
    else if BridgeKey(table[0]) == BridgeKey(b) then [b] + table[1..]
    else [table[0]] + Install(table[1..], b)
  }

  function Table(bridges: seq<Bridge>): seq<Bridge> {
    if bridges == [] then [] else Install(Table(bridges[..|bridges| - 1]), bridges[|bridges| - 1])
  }

  /** A bridge takes the place of the one with its key, or the last place if there is none. */
  lemma {:induction false} InstallPlaces(table: seq<Bridge>, b: Bridge, i: nat)
    requires i <= |table| && forall j | 0 <= j < i :: BridgeKey(table[j]) != BridgeKey(b)
    requires i < |table| ==> BridgeKey(table[i]) == BridgeKey(b)
    ensures Install(table, b) == if i < |table| then table[i := b] else table + [b]
  {
    hide BridgeKey;
    if 0 < i {
      InstallPlaces(table[1..], b, i - 1);
      assert table == [table[0]] + table[1..];
    }
  }

  predicate UniqueKeys(table: seq<Bridge>) {
    forall i, j | 0 <= i < j < |table| :: BridgeKey(table[i]) != BridgeKey(table[j])
  }

  lemma {:induction false} InstallUnique(table: seq<Bridge>, b: Bridge)
    requires UniqueKeys(table)
    ensures UniqueKeys(Install(table, b))
    ensures forall i | 0 <= i < |Install(table, b)| ::
              BridgeKey(Install(table, b)[i]) == BridgeKey(b)
              || exists j | 0 <= j < |table| :: BridgeKey(table[j]) == BridgeKey(Install(table, b)[i])
  {
    hide BridgeKey;
    if table != [] && BridgeKey(table[0]) != BridgeKey(b) {
      var rest := Install(table[1..], b);
      InstallUnique(table[1..], b);
      forall i | 0 <= i < |rest| ensures BridgeKey(rest[i]) != BridgeKey(table[0]) {
        if BridgeKey(rest[i]) != BridgeKey(b) {
          var j :| 0 <= j < |table[1..]| && BridgeKey(table[1..][j]) == BridgeKey(rest[i]);
          assert BridgeKey(table[j + 1]) != BridgeKey(table[0]);
        }
      }
    }
  }

  lemma {:induction false} TableUnique(bridges: seq<Bridge>)
    ensures UniqueKeys(Table(bridges))
  {
    if bridges != [] {
      TableUnique(bridges[..|bridges| - 1]);
      InstallUnique(Table(bridges[..|bridges| - 1]), bridges[|bridges| - 1]);
    }
  }

  /** Bridges of the same pair have the same key, so a pair has one bridge. */
  lemma OneBridgePerPair(bridges: seq<Bridge>, i: nat, j: nat)
    requires i < j < |Table(bridges)|
    ensures Table(bridges)[i].source != Table(bridges)[j].source || Table(bridges)[i].target != Table(bridges)[j].target
  {
    TableUnique(bridges);
  }

  /** The longer source starts with the shorter one's key up to its target's end. */
  predicate Overlaps(a: Bridge, b: Bridge) {
    && |a.source| + 2 <= |b.source|
    && b.source[..|a.source| + 2] == a.source + "->"
    && a.target == b.source[|a.source| + 2..] + "->" + b.target
  }

  /** Equal keys of equally long sources stand for one pair. */
  lemma SameLengthKeys(a: Bridge, b: Bridge)
    requires |a.source| == |b.source|
    ensures BridgeKey(a) == BridgeKey(b) <==> a.source == b.source && a.target == b.target
  {
    var n := |a.source|;
    if BridgeKey(a) == BridgeKey(b) {
      assert a.source == BridgeKey(a)[..n] && b.source == BridgeKey(b)[..n];
      assert a.target == BridgeKey(a)[n + 2..] && b.target == BridgeKey(b)[n + 2..];
    }
  }

  /** Keys of different pairs are equal exactly if one source is the other's, an arrow and something more,
      and the other target is the rest: `s`, `m->t` against `s->m`, `t`. */
  lemma KeysCollideIff(a: Bridge, b: Bridge)
    requires |a.source| < |b.source|
    ensures BridgeKey(a) == BridgeKey(b) <==> Overlaps(a, b)
    ensures Overlaps(a, b) <==> exists m: string :: b.source == a.source + "->" + m && a.target == m + "->" + b.target
  {
    var n := |a.source|;
    if BridgeKey(a) == BridgeKey(b) {
      KeyOverlaps(a, b);
    }
    if Overlaps(a, b) {
      var m := b.source[n + 2..];
      assert b.source == b.source[..n + 2] + m == a.source + "->" + m;
      Arrows(a.source, m, b.target);
    }
    if m: string :| b.source == a.source + "->" + m && a.target == m + "->" + b.target {
      assert b.source[..n + 2] == a.source + "->" && b.source[n + 2..] == m;
      Arrows(a.source, m, b.target);
    }
  }

  lemma Arrows(s: string, m: string, t: string)
    ensures s + "->" + (m + "->" + t) == s + "->" + m + "->" + t
  {
  }

  lemma KeyOverlaps(a: Bridge, b: Bridge)
    requires |a.source| < |b.source| && BridgeKey(a) == BridgeKey(b)
    ensures Overlaps(a, b)
  {
    var key, n, m := BridgeKey(a), |a.source|, |b.source|;
    assert key[n] == '-' && key[n + 1] == '>' && key[m] == '-' && key[m + 1] == '>';
    assert b.source == key[..m];
    assert b.source[..n + 2] == key[..n + 2] == a.source + "->";
    assert a.target == key[n + 2..] && b.target == key[m + 2..];
    assert key[n + 2..] == key[n + 2..m] + key[m..m + 2] + key[m + 2..];
    assert key[m..m + 2] == "->" && b.source[n + 2..] == key[n + 2..m];
  }

  /** So a key stands for one pair unless the longer source contains an arrow. */
  lemma KeyIsPair(a: Bridge, b: Bridge)
    requires !Contains(a.source, "->") && !Contains(b.source, "->") && BridgeKey(a) == BridgeKey(b)
    ensures a.source == b.source && a.target == b.target
  {
    if |a.source| == |b.source| {
      SameLengthKeys(a, b);
    } else if |a.source| < |b.source| {
      KeysCollideIff(a, b);
      OverlapHasArrow(a, b);
    } else {
      KeysCollideIff(b, a);
      OverlapHasArrow(b, a);
    }
  }

  lemma OverlapHasArrow(a: Bridge, b: Bridge)
    requires Overlaps(a, b)
    ensures Contains(b.source, "->")
  {
    var n := |a.source|;
    assert b.source[n..][..2] == (a.source + "->")[n..] == "->";
    assert OccursAt(b.source, "->", n);
  }

  /** Of two such bridges only the later one is installed. */
  lemma KeysCollide(a: Bridge, b: Bridge, m: string)
    requires b.source == a.source + "->" + m && a.target == m + "->" + b.target
    ensures Table([a, b]) == [b] && Table([b, a]) == [a]
  {
    KeysCollideIff(a, b);
    hide BridgeKey;
    TwoInstalled(a, b);
    TwoInstalled(b, a);
  }

  lemma TwoInstalled(a: Bridge, b: Bridge)
    requires BridgeKey(a) == BridgeKey(b)
    ensures Table([a, b]) == [b]
  {
    hide BridgeKey;
    assert [a, b][..1] == [a] && [a][..0] == [];
    assert Table([a]) == Install([], a) == [a] && [a][1..] == [];
    assert Table([a, b]) == Install([a], b);
  }

  // ----- Forwarding one event

  function MatchesEventPattern(eventType: string, pattern: string): (m: bool)
    ensures m <==> if pattern != "" && pattern[|pattern| - 1] == '*' then pattern[..|pattern| - 1] <= eventType
                   else eventType == pattern
  {
    if pattern == "*" then true
    else if pattern != "" && pattern[|pattern| - 1] == '*' then pattern[..|pattern| - 1] <= eventType
    else eventType == pattern
  }

  /** The world around the manager: its kernels, and which events they accept. */
  datatype System = System(
    table: seq<Bridge>,
    kernels: seq<ManagedKernel>,
    accepts: (string, Event) -> bool,
    globalLogging: bool)

  predicate Running(kernels: seq<ManagedKernel>, namespace: string) {
    exists i | 0 <= i < |kernels| :: kernels[i].namespace == namespace && kernels[i].running
  }

  /** What one bridge makes of an event that arrived at `source`. */
  function Relay(sys: System, b: Bridge, source: string, event: Event): Option<Item> {
    if b.source != source || !MatchesEventPattern(event.eventType, b.pattern) then None
    else
      match b.transform(event)
      case None => None
      case Some(e) =>
        if Running(sys.kernels, b.target) && sys.accepts(b.target, e) then Some(Item(b.target, e)) else None
  }

  /** An event goes over a bridge exactly if it arrived at the bridge's source, its type matches, the transform
      yields an event, and a running kernel of the target namespace accepts that. */
  lemma RelayIff(sys: System, b: Bridge, source: string, event: Event, x: Item)
    ensures Relay(sys, b, source, event) == Some(x)
       <==> && b.source == source && x.namespace == b.target && b.transform(event) == Some(x.event)
            && (if b.pattern != "" && b.pattern[|b.pattern| - 1] == '*'
                then b.pattern[..|b.pattern| - 1] <= event.eventType else event.eventType == b.pattern)
            && (exists k | k in sys.kernels :: k.namespace == b.target && k.running)
            && sys.accepts(b.target, x.event)
  {
    if k :| k in sys.kernels && k.namespace == b.target && k.running {
      var i :| 0 <= i < |sys.kernels| && sys.kernels[i] == k;
    }
  }

  /** What it logs: every failure, and successes if asked to. */
  function Logged(sys: System, b: Bridge, source: string, event: Event, now: int): seq<LogEntry> {
    if b.source != source || !MatchesEventPattern(event.eventType, b.pattern) then []
    else
      match b.transform(event)
      case None => [LogEntry(now, source, b.target, event.eventType, false)]
      case Some(e) =>
        if !Running(sys.kernels, b.target) then []
        else if !sys.accepts(b.target, e) then [LogEntry(now, source, b.target, event.eventType, false)]
        else if b.logging || sys.globalLogging then [LogEntry(now, source, b.target, event.eventType, true)]
        else []
  }

  /** At most one entry a bridge, which tells where the event came from and went. It is a failure exactly if the
      event matches and either the transform throws or a running kernel of the target refuses; an event without
      such a kernel leaves no trace. */
  lemma LoggedIff(sys: System, b: Bridge, source: string, event: Event, now: int)
    ensures var log := Logged(sys, b, source, event, now);
            && |log| <= 1
            && (forall x | x in log ::
                  x.timestamp == now && x.source == source && x.target == b.target && x.eventType == event.eventType)
            && ((exists x | x in log :: !x.success)
                <==> b.source == source && MatchesEventPattern(event.eventType, b.pattern)
                     && (b.transform(event).None?
                         || (Running(sys.kernels, b.target) && !sys.accepts(b.target, b.transform(event).value))))
            && ((exists x | x in log :: x.success)
                <==> Relay(sys, b, source, event).Some? && (b.logging || sys.globalLogging))
  {
    var log := Logged(sys, b, source, event, now);
    hide Running, MatchesEventPattern;
    if log != [] {
      assert log[0] in log;
    }
  }

  function OptionSeq<T>(o: Option<T>): seq<T> {
    match o case None => [] case Some(x) => [x]
  }

  function EmissionsOf(sys: System, bridges: seq<Bridge>, source: string, event: Event): seq<Item> {
    if bridges == [] then []
    else EmissionsOf(sys, bridges[..|bridges| - 1], source, event)
         + OptionSeq(Relay(sys, bridges[|bridges| - 1], source, event))
  }

  function LogOf(sys: System, bridges: seq<Bridge>, source: string, event: Event, now: int): seq<LogEntry> {
    if bridges == [] then []
    else LogOf(sys, bridges[..|bridges| - 1], source, event, now)
         + Logged(sys, bridges[|bridges| - 1], source, event, now)
  }

  function Emissions(sys: System, item: Item): seq<Item> {
    EmissionsOf(sys, sys.table, item.namespace, item.event)
  }

  class MultiKernelManager {
    var eventBridges: seq<Bridge>
    var kernels: seq<ManagedKernel>
    var crossKernelEventLog: seq<LogEntry>
    const enableCrossKernelLogging: bool

    constructor (bridges: seq<Bridge>, kernels: seq<ManagedKernel>, logging: bool)
      ensures eventBridges == Table(bridges) && this.kernels == kernels && crossKernelEventLog == []
      ensures enableCrossKernelLogging == logging
    {
      enableCrossKernelLogging := logging;
      this.kernels, crossKernelEventLog := kernels, [];
      var table := [];
      for i := 0 to |bridges|
        invariant table == Table(bridges[..i])
      {
        assert bridges[..i + 1][..i] == bridges[..i];
        table := Install(table, bridges[i]);
      }
      assert bridges[..|bridges|] == bridges;
      eventBridges := table;
    }

    ghost function World(accepts: (string, Event) -> bool): System
      reads this
    {
      System(eventBridges, kernels, accepts, enableCrossKernelLogging)
    }

    method FindKernelByNamespace(namespace: string) returns (index: Option<nat>)
      ensures index.Some? <==> Running(kernels, namespace)
      ensures index.Some? ==>
                && index.value < |kernels| && kernels[index.value] == ManagedKernel(namespace, true)
                && forall j | 0 <= j < index.value :: kernels[j] != ManagedKernel(namespace, true)
    {
      for i := 0 to |kernels|
        invariant forall j | 0 <= j < i :: kernels[j] != ManagedKernel(namespace, true)
      {
        if kernels[i].namespace == namespace && kernels[i].running {
          return Some(i);
        }
      }
      return None;
    }

    /** One round of the loop below. */
    method Forward(bridge: Bridge, source: string, event: Event, accepts: (string, Event) -> bool, now: int)
      returns (emitted: Option<Item>)
      modifies this`crossKernelEventLog
      ensures emitted == Relay(World(accepts), bridge, source, event)
      ensures crossKernelEventLog == old(crossKernelEventLog) + Logged(World(accepts), bridge, source, event, now)
    {
      hide MatchesEventPattern;
      if bridge.source != source || !MatchesEventPattern(event.eventType, bridge.pattern) {
        return None;
      }
      var targetEvent := bridge.transform(event);
      emitted := None;
      if targetEvent.Some? {
        var target := FindKernelByNamespace(bridge.target);
        if target.None? {
          return;
        }
        if accepts(bridge.target, targetEvent.value) {
          emitted := Some(Item(bridge.target, targetEvent.value));
        }
      }
      if emitted.None? || bridge.logging || enableCrossKernelLogging {
        crossKernelEventLog :=
          crossKernelEventLog + [LogEntry(now, source, bridge.target, event.eventType, emitted.Some?)];
      }
    }

    /** The events it emits, in order. */
    method HandleCrossKernelEvent(source: string, event: Event, accepts: (string, Event) -> bool, now: int)
      returns (emitted: seq<Item>)
      modifies this`crossKernelEventLog
      ensures emitted == Emissions(World(accepts), Item(source, event))
      ensures crossKernelEventLog
           == old(crossKernelEventLog) + LogOf(World(accepts), eventBridges, source, event, now)
    {
      hide Relay, Logged, OptionSeq;
      emitted := [];
      ghost var sys := World(accepts);
      for i := 0 to |eventBridges|
        invariant emitted == EmissionsOf(sys, eventBridges[..i], source, event)
        invariant crossKernelEventLog == old(crossKernelEventLog) + LogOf(sys, eventBridges[..i], source, event, now)
      {
        assert eventBridges[..i + 1][..i] == eventBridges[..i];
        var e := Forward(eventBridges[i], source, event, accepts, now);
        emitted := emitted + OptionSeq(e);
      }
      assert eventBridges[..|eventBridges|] == eventBridges;
    }
  }

  // ----- What one handled event causes

  /** One hop: a bridge of the table takes `a` to `b`. */
  ghost predicate Hop(sys: System, a: Item, b: Item) {
    exists i | 0 <= i < |sys.table| :: Relay(sys, sys.table[i], a.namespace, a.event) == Some(b)
  }

  lemma {:induction false} EmissionsFrom(sys: System, bridges: seq<Bridge>, source: string, event: Event, x: Item)
    ensures x in EmissionsOf(sys, bridges, source, event)
       <==> exists i | 0 <= i < |bridges| :: Relay(sys, bridges[i], source, event) == Some(x)
  {
    hide Relay;
    if bridges != [] {
      var init, last := bridges[..|bridges| - 1], bridges[|bridges| - 1];
      EmissionsFrom(sys, init, source, event, x);
      if i :| 0 <= i < |bridges| && Relay(sys, bridges[i], source, event) == Some(x) {
        if i < |init| { assert init[i] == bridges[i]; }
      }
      if i :| 0 <= i < |init| && Relay(sys, init[i], source, event) == Some(x) {
        assert init[i] == bridges[i];
      }
    }
  }

  /** An event is forwarded exactly where a bridge takes it. */
  lemma EmissionsAreHops(sys: System, a: Item, b: Item)
    ensures b in Emissions(sys, a) <==> Hop(sys, a, b)
  {
    EmissionsFrom(sys, sys.table, a.namespace, a.event, b);
  }

  predicate DistinctTargets(e: seq<Item>) {
    forall i, j | 0 <= i < j < |e| :: e[i].namespace != e[j].namespace
  }

  /** Handling one event sends at most one event over each ordered pair of namespaces. */
  lemma {:induction false} OneEmissionPerPair(sys: System, bridges: seq<Bridge>, source: string, event: Event)
    requires UniqueKeys(bridges)
    ensures DistinctTargets(EmissionsOf(sys, bridges, source, event))
  {
    if bridges != [] {
      var init, last := bridges[..|bridges| - 1], bridges[|bridges| - 1];
      assert forall i | 0 <= i < |init| :: init[i] == bridges[i];
      OneEmissionPerPair(sys, init, source, event);
      var e, r := EmissionsOf(sys, init, source, event), Relay(sys, last, source, event);
      hide Relay, BridgeKey;
      forall k | 0 <= k < |e| && r.Some? ensures e[k].namespace != r.value.namespace {
        assert e[k] in e;
        EmissionsFrom(sys, init, source, event, e[k]);
        var i :| 0 <= i < |init| && Relay(sys, init[i], source, event) == Some(e[k]);
        RelayTarget(sys, init[i], source, event);
        RelayTarget(sys, last, source, event);
        assert bridges[i] == init[i] && BridgeKey(bridges[i]) != BridgeKey(last);
        SamePairSameKey(init[i], last);
      }
      assert EmissionsOf(sys, bridges, source, event) == e + OptionSeq(r);
      assert DistinctTargets(e);
    }
  }

  lemma SamePairSameKey(a: Bridge, b: Bridge)
    ensures a.source == b.source && a.target == b.target ==> BridgeKey(a) == BridgeKey(b)
  {
  }

  lemma RelayTarget(sys: System, b: Bridge, source: string, event: Event)
    requires Relay(sys, b, source, event).Some?
    ensures b.source == source && b.target == Relay(sys, b, source, event).value.namespace
  {
  }

  /** The targets of the logged successes. */
  function Successes(log: seq<LogEntry>): seq<string> {
    if log == [] then []
    else Successes(log[..|log| - 1]) + if log[|log| - 1].success then [log[|log| - 1].target] else []
  }

  function Targets(items: seq<Item>): seq<string> {
    seq(|items|, i requires 0 <= i < |items| => items[i].namespace)
  }

  lemma {:induction false} SuccessesAppend(a: seq<LogEntry>, b: seq<LogEntry>)
    ensures Successes(a + b) == Successes(a) + Successes(b)
  {
    if b == [] {
      assert a + b == a;
    } else {
      assert (a + b)[..|a + b| - 1] == a + b[..|b| - 1];
      SuccessesAppend(a, b[..|b| - 1]);
    }
  }

  /** The bridges whose successes are logged. */
  function Logging(sys: System, bridges: seq<Bridge>): seq<Bridge> {
    if bridges == [] then []
    else
      var before, b := Logging(sys, bridges[..|bridges| - 1]), bridges[|bridges| - 1];
      if sys.globalLogging || b.logging then before + [b] else before
  }

  /** The log's successes are the emissions over the bridges that log, in order: all of them with logging on
      globally. */
  lemma {:induction false} LogIsFaithful(sys: System, bridges: seq<Bridge>, source: string, event: Event, now: int)
    ensures Successes(LogOf(sys, bridges, source, event, now))
         == Targets(EmissionsOf(sys, Logging(sys, bridges), source, event))
    ensures sys.globalLogging ==> Logging(sys, bridges) == bridges
  {
    hide Relay, Logged, Successes, Targets;
    if bridges == [] {
      NoSuccesses();
    } else {
      var init, last := bridges[..|bridges| - 1], bridges[|bridges| - 1];
      assert bridges == init + [last];
      LogIsFaithful(sys, init, source, event, now);
      SuccessesAppend(LogOf(sys, init, source, event, now), Logged(sys, last, source, event, now));
      OneSuccess(sys, last, source, event, now);
      EmissionsSnoc(sys, Logging(sys, init), last, source, event);
      TargetsAppend(EmissionsOf(sys, Logging(sys, init), source, event), OptionSeq(Relay(sys, last, source, event)));
    }
  }

  lemma EmissionsSnoc(sys: System, bridges: seq<Bridge>, b: Bridge, source: string, event: Event)
    ensures EmissionsOf(sys, bridges + [b], source, event)
         == EmissionsOf(sys, bridges, source, event) + OptionSeq(Relay(sys, b, source, event))
  {
    hide Relay;
    assert (bridges + [b])[..|bridges|] == bridges;
  }

  lemma TargetsAppend(a: seq<Item>, b: seq<Item>)
    ensures Targets(a + b) == Targets(a) + Targets(b)
  {
  }

  lemma NoSuccesses()
    ensures Successes([]) == Targets([]) == []
  {
  }

  lemma OneSuccess(sys: System, b: Bridge, source: string, event: Event, now: int)
    ensures Successes(Logged(sys, b, source, event, now))
         == if sys.globalLogging || b.logging then Targets(OptionSeq(Relay(sys, b, source, event))) else []
  {
  }
}
