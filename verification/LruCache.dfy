/** `LRUCache`: a map with access times whose oldest entry is found by scanning, against the
    textbook list kept in recency order. */
module LruCache {
  import opened Text

  /** One entry of the Map. */
  datatype Slot<+T> = Slot(key: string, value: T, last: int)

  function Index<T>(slots: seq<Slot<T>>, key: string): (i: nat)
    ensures i <= |slots|
    ensures i < |slots| ==> slots[i].key == key
    ensures forall j | 0 <= j < i :: slots[j].key != key
  {
    if slots == [] || slots[0].key == key then 0 else 1 + Index(slots[1..], key)
  }

  predicate HasKey<T>(slots: seq<Slot<T>>, key: string) {
    Index(slots, key) < |slots|
  }

  function DropAt<T>(slots: seq<Slot<T>>, i: nat): (r: seq<Slot<T>>)
    requires i < |slots|
    ensures |r| == |slots| - 1
    ensures forall j | 0 <= j < |r| :: r[j] == if j < i then slots[j] else slots[j + 1]
  {
    slots[..i] + slots[i + 1..]
  }

  function Without<T>(slots: seq<Slot<T>>, key: string): seq<Slot<T>> {
    var i := Index(slots, key);
    if i < |slots| then DropAt(slots, i) else slots
  }

  /** Position of the entry the scan settles on: the first with the smallest access time. */
  function Oldest<T>(slots: seq<Slot<T>>): (i: nat)
    requires slots != []
    ensures i < |slots|
    ensures forall j | 0 <= j < |slots| :: slots[i].last <= slots[j].last
    ensures forall j | 0 <= j < i :: slots[i].last < slots[j].last
  {
    if |slots| == 1 then 0
    else
      var i := Oldest(slots[..|slots| - 1]);
      if slots[|slots| - 1].last < slots[i].last then |slots| - 1 else i
  }

  /** `evictLRU`; the empty key is not deleted, since it is falsy. */
  function Evicted<T>(slots: seq<Slot<T>>): seq<Slot<T>> {
    if slots == [] || slots[Oldest(slots)].key == "" then slots
    else Without(slots, slots[Oldest(slots)].key)
  }

  datatype Op<+T> = GetOp(key: string) | SetOp(key: string, value: T) | DeleteOp(key: string) | ClearOp

  /** The entries after an operation at time `now`, and the value it returns. */
  function Apply<T>(slots: seq<Slot<T>>, maxSize: nat, op: Op<T>, now: int): (seq<Slot<T>>, Option<T>) {
    match op
    case GetOp(key) =>
      var i := Index(slots, key);
      if i < |slots| then (slots[i := Slot(key, slots[i].value, now)], Some(slots[i].value)) else (slots, None)
    case SetOp(key, value) =>
      var i := Index(slots, key);
      if i < |slots| then (slots[i := Slot(key, value, now)], None)
      else ((if |slots| >= maxSize then Evicted(slots) else slots) + [Slot(key, value, now)], None)
    case DeleteOp(key) => (Without(slots, key), None)
    case ClearOp => ([], None)
  }

  class LRUCache<T> {
    const maxSize: nat
    /** The Map's entries in iteration order, which is insertion order. */
    var entries: seq<Slot<T>>

    constructor (maxSize: nat)
      ensures this.maxSize == maxSize && entries == []
    {
      this.maxSize := maxSize;
      entries := [];
    }

    method Get(key: string, now: int) returns (r: Option<T>)
      modifies this
      ensures (entries, r) == Apply(old(entries), maxSize, GetOp(key), now)
    {
      var i := Index(entries, key);
      if i < |entries| {
        entries := entries[i := entries[i].(last := now)];
        return Some(entries[i].value);
      }
      return None;
    }

    method Set(key: string, value: T, now: int)
      modifies this
      ensures entries == Apply(old(entries), maxSize, SetOp(key, value), now).0
    {
      var i := Index(entries, key);
      if i < |entries| {
        entries := entries[i := Slot(key, value, now)];
        return;
      }
      if |entries| >= maxSize {
        EvictLRU();
      }
      entries := entries + [Slot(key, value, now)];
    }

    method Has(key: string) returns (b: bool)
      ensures b == HasKey(entries, key)
    {
      b := Index(entries, key) < |entries|;
    }

    method Delete(key: string)
      modifies this
      ensures entries == Apply(old(entries), maxSize, DeleteOp(key), 0).0
    {
      var i := Index(entries, key);
      if i < |entries| {
        entries := DropAt(entries, i);
      }
    }

    method Clear()
      modifies this
      ensures entries == []
    {
      entries := [];
    }

    method EvictLRU()
      modifies this
      ensures entries == Evicted(old(entries))
    {
      var oldestKey: Option<string> := None;
      var oldestTime := 0;
      for i := 0 to |entries|
        invariant oldestKey.None? <==> i == 0
        invariant i > 0 ==> var o := Oldest(entries[..i]);
                            oldestKey == Some(entries[o].key) && oldestTime == entries[o].last
      {
        assert entries[..i + 1][..i] == entries[..i];
        if oldestKey.None? || entries[i].last < oldestTime {
          oldestTime := entries[i].last;
          oldestKey := Some(entries[i].key);
        }
      }
      assert entries[..|entries|] == entries;
      if oldestKey.Some? && oldestKey.value != "" {
        Delete(oldestKey.value);
      }
    }
  }

  // ----- The reference: a list of key-value pairs, least recently used first

  datatype Pair<+T> = Pair(key: string, value: T)

  function Position<T>(list: seq<Pair<T>>, key: string): (i: nat)
    ensures i <= |list|
    ensures i < |list| ==> list[i].key == key
    ensures forall j | 0 <= j < i :: list[j].key != key
  {
    if list == [] || list[0].key == key then 0 else 1 + Position(list[1..], key)
  }

  function Use<T>(list: seq<Pair<T>>, i: nat, value: T): seq<Pair<T>>
    requires i < |list|
  {
    list[..i] + list[i + 1..] + [Pair(list[i].key, value)]
  }

  function RefInsert<T>(list: seq<Pair<T>>, maxSize: nat, p: Pair<T>): seq<Pair<T>> {
    (if |list| >= maxSize && list != [] then list[1..] else list) + [p]
  }

  function RefApply<T>(list: seq<Pair<T>>, maxSize: nat, op: Op<T>): (seq<Pair<T>>, Option<T>) {
    match op
    case GetOp(key) =>
      var i := Position(list, key);
      if i < |list| then (Use(list, i, list[i].value), Some(list[i].value)) else (list, None)
    case SetOp(key, value) =>
      var i := Position(list, key);
      if i < |list| then (Use(list, i, value), None)
      else (RefInsert(list, maxSize, Pair(key, value)), None)
    case DeleteOp(key) =>
      var i := Position(list, key);
      if i < |list| then (list[..i] + list[i + 1..], None) else (list, None)
    case ClearOp => ([], None)
  }

  // ----- The simulation

  function Erase<T>(slots: seq<Slot<T>>): (list: seq<Pair<T>>)
    ensures |list| == |slots|
    ensures forall i | 0 <= i < |slots| :: list[i] == Pair(slots[i].key, slots[i].value)
  {
    seq(|slots|, i requires 0 <= i < |slots| => Pair(slots[i].key, slots[i].value))
  }

  predicate UniqueKeys<T>(slots: seq<Slot<T>>) {
    forall i, j | 0 <= i < j < |slots| :: slots[i].key != slots[j].key
  }

  predicate Increasing<T>(slots: seq<Slot<T>>) {
    forall i, j | 0 <= i < j < |slots| :: slots[i].last < slots[j].last
  }

  predicate Ordered<T>(slots: seq<Slot<T>>) {
    forall i, j | 0 <= i < j < |slots| :: slots[i].last <= slots[j].last
  }

  /** `sorted` is `entries` in order of use, which is an order of access times, all up to `now`. */
  ghost predicate Represents<T>(sorted: seq<Slot<T>>, entries: seq<Slot<T>>, now: int) {
    && |sorted| == |entries|
    && UniqueKeys(entries) && UniqueKeys(sorted) && Ordered(sorted)
    && (forall s | s in sorted :: s in entries)
    && (forall s | s in entries :: s in sorted && s.last <= now && s.key != "")
  }

  lemma DropAtMembers<T>(slots: seq<Slot<T>>, i: nat, s: Slot<T>)
    requires i < |slots| && UniqueKeys(slots)
    ensures s in DropAt(slots, i) <==> s in slots && s.key != slots[i].key
  {
    var r := DropAt(slots, i);
    hide DropAt;
    if j :| 0 <= j < |slots| && slots[j] == s && s.key != slots[i].key {
      var k := if j < i then j else j - 1;
      assert r[k] == s;
    }
    if j :| 0 <= j < |r| && r[j] == s {
      var k := if j < i then j else j + 1;
      assert slots[k] == s && k != i;
    }
  }

  lemma DropAtOrder<T>(slots: seq<Slot<T>>, i: nat)
    requires i < |slots|
    ensures UniqueKeys(slots) ==> UniqueKeys(DropAt(slots, i))
    ensures Ordered(slots) ==> Ordered(DropAt(slots, i))
    ensures Increasing(slots) ==> Increasing(DropAt(slots, i))
  {
  }

  lemma WithoutMembers<T>(slots: seq<Slot<T>>, key: string)
    requires UniqueKeys(slots)
    ensures forall s | s in slots :: s.key != key ==> s in Without(slots, key)
    ensures forall s | s in Without(slots, key) :: s in slots && s.key != key
    ensures UniqueKeys(Without(slots, key))
    ensures Ordered(slots) ==> Ordered(Without(slots, key))
    ensures Increasing(slots) ==> Increasing(Without(slots, key))
    ensures |Without(slots, key)| == if HasKey(slots, key) then |slots| - 1 else |slots|
  {
    hide DropAt, UniqueKeys, Ordered, Increasing;
    var i := Index(slots, key);
    if i < |slots| {
      DropAtOrder(slots, i);
      forall s: Slot<T> | s in slots && s.key != key ensures s in DropAt(slots, i) {
        DropAtMembers(slots, i, s);
      }
      forall s | s in DropAt(slots, i) ensures s in slots && s.key != key {
        DropAtMembers(slots, i, s);
      }
    }
  }

  lemma KeyMember<T>(slots: seq<Slot<T>>, key: string)
    ensures HasKey(slots, key) ==> exists s | s in slots :: s.key == key
  {
    assert HasKey(slots, key) ==> slots[Index(slots, key)] in slots;
  }

  lemma PositionIsIndex<T>(slots: seq<Slot<T>>, key: string)
    ensures Position(Erase(slots), key) == Index(slots, key)
  {
    var i, p := Index(slots, key), Position(Erase(slots), key);
    assert forall j | 0 <= j < |slots| :: Erase(slots)[j].key == slots[j].key;
  }

  /** Both lists know the same keys, with the same slot. */
  lemma SameIndex<T>(sorted: seq<Slot<T>>, entries: seq<Slot<T>>, now: int, key: string)
    requires Represents(sorted, entries, now)
    ensures HasKey(sorted, key) <==> HasKey(entries, key)
    ensures HasKey(entries, key) ==> sorted[Index(sorted, key)] == entries[Index(entries, key)]
  {
    var i, j := Index(sorted, key), Index(entries, key);
    if i < |sorted| {
      assert sorted[i] in entries;
      var k :| 0 <= k < |entries| && entries[k] == sorted[i];
      assert k == j;
    }
    if j < |entries| {
      assert entries[j] in sorted;
      var k :| 0 <= k < |sorted| && sorted[k] == entries[j];
    }
  }

  /** Appending a fresh slot to both. */
  lemma RepresentsAppend<T>(sorted: seq<Slot<T>>, entries: seq<Slot<T>>, now: int, s: Slot<T>)
    requires Represents(sorted, entries, now)
    requires s.last >= now && s.key != "" && !HasKey(entries, s.key)
    ensures Represents(sorted + [s], entries + [s], s.last)
  {
    SameIndex(sorted, entries, now, s.key);
    forall i | 0 <= i < |sorted| ensures sorted[i].last <= now {
      assert sorted[i] in entries;
    }
  }

  lemma RepresentsWithout<T>(sorted: seq<Slot<T>>, entries: seq<Slot<T>>, now: int, key: string)
    requires Represents(sorted, entries, now)
    ensures Represents(Without(sorted, key), Without(entries, key), now)
  {
    WithoutMembers(sorted, key);
    WithoutMembers(entries, key);
    SameIndex(sorted, entries, now, key);
  }

  lemma UpdateMembers<T>(entries: seq<Slot<T>>, i: nat, s: Slot<T>, x: Slot<T>)
    requires i < |entries|
    ensures x in entries[i := s] <==> x in DropAt(entries, i) + [s]
  {
    var u, r := entries[i := s], DropAt(entries, i) + [s];
    hide DropAt;
    if j :| 0 <= j < |u| && u[j] == x {
      var k := if j < i then j else if j == i then |r| - 1 else j - 1;
      assert r[k] == x;
    }
    if j :| 0 <= j < |r| && r[j] == x {
      var k := if j == |r| - 1 then i else if j < i then j else j + 1;
      assert u[k] == x;
    }
  }

  lemma UpdateUnique<T>(entries: seq<Slot<T>>, i: nat, s: Slot<T>)
    requires i < |entries| && entries[i].key == s.key && UniqueKeys(entries)
    ensures UniqueKeys(entries[i := s])
  {
    assert forall j | 0 <= j < |entries| :: entries[i := s][j].key == entries[j].key;
  }

  /** Updating a slot in place is, up to the order of the Map, removing it and adding it anew. */
  lemma RepresentsUpdate<T>(sorted: seq<Slot<T>>, entries: seq<Slot<T>>, now: int, i: nat, s: Slot<T>)
    requires i < |entries| && entries[i].key == s.key && UniqueKeys(entries)
    requires Represents(sorted, DropAt(entries, i) + [s], now)
    ensures Represents(sorted, entries[i := s], now)
  {
    hide DropAt, UniqueKeys, Ordered;
    UpdateUnique(entries, i, s);
    forall x | x in sorted || x in entries[i := s]
      ensures x in entries[i := s] <==> x in DropAt(entries, i) + [s]
    {
      UpdateMembers(entries, i, s, x);
    }
  }

  /** Using a slot: it moves to the end of the one list and is updated in place in the other. */
  lemma RepresentsUse<T>(sorted: seq<Slot<T>>, entries: seq<Slot<T>>, now: int, i: nat, s: Slot<T>)
    requires Represents(sorted, entries, now)
    requires i < |entries| && entries[i].key == s.key && s.last >= now
    ensures Represents(Without(sorted, s.key) + [s], entries[i := s], s.last)
  {
    hide DropAt, Ordered;
    RepresentsWithout(sorted, entries, now, s.key);
    assert Index(entries, s.key) == i;
    var rest := Without(entries, s.key);
    assert !HasKey(rest, s.key) by {
      WithoutMembers(entries, s.key);
      KeyMember(rest, s.key);
    }
    RepresentsAppend(Without(sorted, s.key), rest, now, s);
    RepresentsUpdate(Without(sorted, s.key) + [s], entries, s.last, i, s);
  }

  /** No entry before the least recently used one in the Map has the same access time. */
  predicate Untied<T>(sorted: seq<Slot<T>>, entries: seq<Slot<T>>) {
    sorted != [] ==>
      forall j | 0 <= j < |entries| :: j < Index(entries, sorted[0].key) ==> entries[j].last != sorted[0].last
  }

  /** The scan settles on the least recently used entry exactly if no tied entry stands before it. */
  lemma SameVictim<T>(sorted: seq<Slot<T>>, entries: seq<Slot<T>>, now: int)
    requires Represents(sorted, entries, now) && entries != []
    ensures entries[Oldest(entries)] == sorted[0] <==> Untied(sorted, entries)
    ensures Untied(sorted, entries) ==>
              Evicted(entries) == Without(entries, sorted[0].key) && Without(sorted, sorted[0].key) == sorted[1..]
  {
    var o, p := Oldest(entries), Index(entries, sorted[0].key);
    SameIndex(sorted, entries, now, sorted[0].key);
    assert Index(sorted, sorted[0].key) == 0;
    forall j | 0 <= j < |entries| ensures sorted[0].last <= entries[j].last {
      assert entries[j] in sorted;
    }
    if Untied(sorted, entries) {
      assert o >= p;
    }
  }

  lemma EraseUse<T>(sorted: seq<Slot<T>>, s: Slot<T>)
    requires HasKey(sorted, s.key)
    ensures Erase(Without(sorted, s.key) + [s]) == Use(Erase(sorted), Position(Erase(sorted), s.key), s.value)
  {
    PositionIsIndex(sorted, s.key);
  }

  lemma EraseWithout<T>(sorted: seq<Slot<T>>, maxSize: nat, key: string)
    ensures Erase(Without(sorted, key)) == RefApply(Erase(sorted), maxSize, DeleteOp(key)).0
  {
    PositionIsIndex(sorted, key);
    var i := Index(sorted, key);
    if i < |sorted| {
      EraseDrop(sorted, i);
    }
  }

  lemma EraseDrop<T>(sorted: seq<Slot<T>>, i: nat)
    requires i < |sorted|
    ensures Erase(DropAt(sorted, i)) == Erase(sorted)[..i] + Erase(sorted)[i + 1..]
  {
    var d, list := Erase(DropAt(sorted, i)), Erase(sorted)[..i] + Erase(sorted)[i + 1..];
    hide Erase, DropAt;
    forall j | 0 <= j < |d| ensures d[j] == list[j] {
    }
  }

  /** The recency list with access times after an operation: the reference, on slots. */
  function Recency<T>(sorted: seq<Slot<T>>, maxSize: nat, op: Op<T>, t: int): seq<Slot<T>> {
    match op
    case ClearOp => []
    case DeleteOp(key) => Without(sorted, key)
    case GetOp(key) =>
      var i := Index(sorted, key);
      if i < |sorted| then Without(sorted, key) + [Slot(key, sorted[i].value, t)] else sorted
    case SetOp(key, value) =>
      (if HasKey(sorted, key) then Without(sorted, key)
       else if |sorted| >= maxSize && sorted != [] then sorted[1..] else sorted) + [Slot(key, value, t)]
  }

  /** The operation evicts an entry. */
  predicate Evicts<T>(entries: seq<Slot<T>>, maxSize: nat, op: Op<T>) {
    op.SetOp? && !HasKey(entries, op.key) && |entries| >= maxSize
  }

  /** One operation at the same or a later time keeps the simulation and returns the same value, unless
      it evicts under a tie. */
  lemma SimulateStep<T>(sorted: seq<Slot<T>>, entries: seq<Slot<T>>, now: int, maxSize: nat, op: Op<T>, t: int)
    requires Represents(sorted, entries, now) && t >= now && maxSize >= 1
    requires op.SetOp? ==> op.key != ""
    requires Evicts(entries, maxSize, op) ==> Untied(sorted, entries)
    ensures Represents(Recency(sorted, maxSize, op, t), Apply(entries, maxSize, op, t).0, t)
    ensures Erase(Recency(sorted, maxSize, op, t)) == RefApply(Erase(sorted), maxSize, op).0
    ensures RefApply(Erase(sorted), maxSize, op).1 == Apply(entries, maxSize, op, t).1
  {
    match op
    case ClearOp =>
    case DeleteOp(key) =>
      EraseWithout(sorted, maxSize, key);
      RepresentsWithout(sorted, entries, now, key);
      Later(Without(sorted, key), Without(entries, key), now, t);
    case GetOp(key) =>
      SimulateGet(sorted, entries, now, maxSize, key, t);
    case SetOp(key, value) =>
      SimulateSet(sorted, entries, now, maxSize, key, value, t);
  }

  lemma Later<T>(sorted: seq<Slot<T>>, entries: seq<Slot<T>>, now: int, later: int)
    requires Represents(sorted, entries, now) && now <= later
    ensures Represents(sorted, entries, later)
  {
  }

  lemma SimulateGet<T>(sorted: seq<Slot<T>>, entries: seq<Slot<T>>, now: int, maxSize: nat, key: string, t: int)
    requires Represents(sorted, entries, now) && t >= now && maxSize >= 1
    ensures Represents(Recency(sorted, maxSize, GetOp(key), t), Apply(entries, maxSize, GetOp(key), t).0, t)
    ensures Erase(Recency(sorted, maxSize, GetOp(key), t)) == RefApply(Erase(sorted), maxSize, GetOp(key)).0
    ensures RefApply(Erase(sorted), maxSize, GetOp(key)).1 == Apply(entries, maxSize, GetOp(key), t).1
  {
    SameIndex(sorted, entries, now, key);
    Later(sorted, entries, now, t);
    PositionIsIndex(sorted, key);
    hide Represents, DropAt;
    var i := Index(entries, key);
    if i < |entries| {
      var s := Slot(key, entries[i].value, t);
      RepresentsUse(sorted, entries, now, i, s);
      EraseUse(sorted, s);
    }
  }

  lemma SimulateSet<T>(sorted: seq<Slot<T>>, entries: seq<Slot<T>>, now: int, maxSize: nat,
                       key: string, value: T, t: int)
    requires Represents(sorted, entries, now) && t >= now && maxSize >= 1 && key != ""
    requires Evicts(entries, maxSize, SetOp(key, value)) ==> Untied(sorted, entries)
    ensures var op := SetOp(key, value);
            && Represents(Recency(sorted, maxSize, op, t), Apply(entries, maxSize, op, t).0, t)
            && Erase(Recency(sorted, maxSize, op, t)) == RefApply(Erase(sorted), maxSize, op).0
  {
    var s := Slot(key, value, t);
    PositionIsIndex(sorted, key);
    SameIndex(sorted, entries, now, key);
    RefSet(Erase(sorted), maxSize, key, value);
    hide Represents, DropAt, Erase, Evicted, Without, RefApply, Use, Untied;
    if HasKey(entries, key) {
      RepresentsUse(sorted, entries, now, Index(entries, key), s);
      EraseUse(sorted, s);
    } else {
      SimulateInsert(sorted, entries, now, maxSize, s);
    }
  }

  lemma RefSet<T>(list: seq<Pair<T>>, maxSize: nat, key: string, value: T)
    ensures var i, after := Position(list, key), RefApply(list, maxSize, SetOp(key, value)).0;
            if i < |list| then after == Use(list, i, value) else after == RefInsert(list, maxSize, Pair(key, value))
  {
  }

  lemma ApplyInsert<T>(entries: seq<Slot<T>>, maxSize: nat, s: Slot<T>)
    requires !HasKey(entries, s.key)
    ensures Apply(entries, maxSize, SetOp(s.key, s.value), s.last).0
         == (if |entries| >= maxSize then Evicted(entries) else entries) + [s]
  {
  }

  lemma SimulateInsert<T>(sorted: seq<Slot<T>>, entries: seq<Slot<T>>, now: int, maxSize: nat, s: Slot<T>)
    requires Represents(sorted, entries, now) && s.last >= now && maxSize >= 1 && s.key != ""
    requires !HasKey(entries, s.key) && (|entries| >= maxSize ==> Untied(sorted, entries))
    ensures var op := SetOp(s.key, s.value);
            && Represents(Recency(sorted, maxSize, op, s.last), Apply(entries, maxSize, op, s.last).0, s.last)
            && Erase(Recency(sorted, maxSize, op, s.last)) == RefInsert(Erase(sorted), maxSize, Pair(s.key, s.value))
  {
    assert |sorted| == |entries|;
    SameIndex(sorted, entries, now, s.key);
    hide Represents, Evicted, Erase, Apply, Untied;
    var kept := if |entries| >= maxSize then sorted[1..] else sorted;
    var room := if |entries| >= maxSize then Evicted(entries) else entries;
    ApplyInsert(entries, maxSize, s);
    if |entries| >= maxSize {
      MakeRoom(sorted, entries, now, s.key);
      EraseTail(sorted);
    }
    RepresentsAppend(kept, room, now, s);
    EraseSnoc(kept, s);
  }

  lemma EraseSnoc<T>(slots: seq<Slot<T>>, s: Slot<T>)
    ensures Erase(slots + [s]) == Erase(slots) + [Pair(s.key, s.value)]
  {
  }

  lemma EraseTail<T>(slots: seq<Slot<T>>)
    requires slots != []
    ensures Erase(slots[1..]) == Erase(slots)[1..]
  {
  }

  /** Evicting drops the head of the list and brings in no key. */
  lemma MakeRoom<T>(sorted: seq<Slot<T>>, entries: seq<Slot<T>>, now: int, key: string)
    requires Represents(sorted, entries, now) && entries != [] && !HasKey(entries, key) && Untied(sorted, entries)
    ensures Represents(sorted[1..], Evicted(entries), now) && !HasKey(Evicted(entries), key)
  {
    SameVictim(sorted, entries, now);
    RepresentsWithout(sorted, entries, now, sorted[0].key);
    WithoutMembers(entries, sorted[0].key);
    var e := Evicted(entries);
    KeyMember(e, key);
  }

  /** The cache has the entries of the reference, in some order of access times. */
  ghost predicate Agrees<T(!new)>(entries: seq<Slot<T>>, list: seq<Pair<T>>, now: int) {
    exists sorted: seq<Slot<T>> :: Represents(sorted, entries, now) && Erase(sorted) == list
  }

  /** An operation keeps the cache in agreement with the reference exactly if it does not evict under a
      tie. */
  lemma StepIsExact<T(!new)>(sorted: seq<Slot<T>>, entries: seq<Slot<T>>, now: int, maxSize: nat, op: Op<T>, t: int)
    requires Represents(sorted, entries, now) && t >= now && maxSize >= 1
    requires op.SetOp? ==> op.key != ""
    ensures Agrees(Apply(entries, maxSize, op, t).0, RefApply(Erase(sorted), maxSize, op).0, t)
            <==> (Evicts(entries, maxSize, op) ==> Untied(sorted, entries))
  {
    if Evicts(entries, maxSize, op) ==> Untied(sorted, entries) {
      SimulateStep(sorted, entries, now, maxSize, op, t);
    } else {
      var after, list := Apply(entries, maxSize, op, t).0, RefApply(Erase(sorted), maxSize, op).0;
      TieKeepsHead(sorted, entries, now, maxSize, op, t);
      hide Represents, Evicted, RefApply, Apply, Untied;
      if final: seq<Slot<T>> :| Represents(final, after, t) && Erase(final) == list {
        MemberErased(final, after, t, sorted[0]);
      }
    }
  }

  lemma MemberErased<T>(sorted: seq<Slot<T>>, entries: seq<Slot<T>>, now: int, s: Slot<T>)
    requires Represents(sorted, entries, now) && s in entries
    ensures exists i | 0 <= i < |sorted| :: Erase(sorted)[i].key == s.key
  {
    assert s in sorted;
    var i :| 0 <= i < |sorted| && sorted[i] == s;
    assert Erase(sorted)[i].key == s.key;
  }

  /** Under a tie the cache keeps the entry that the reference evicts. */
  lemma TieKeepsHead<T>(sorted: seq<Slot<T>>, entries: seq<Slot<T>>, now: int, maxSize: nat, op: Op<T>, t: int)
    requires Represents(sorted, entries, now) && maxSize >= 1
    requires Evicts(entries, maxSize, op) && !Untied(sorted, entries)
    ensures sorted != [] && sorted[0] in Apply(entries, maxSize, op, t).0
    ensures forall i | 0 <= i < |RefApply(Erase(sorted), maxSize, op).0| ::
              RefApply(Erase(sorted), maxSize, op).0[i].key != sorted[0].key
  {
    OtherVictim(sorted, entries, now);
    SameIndex(sorted, entries, now, op.key);
    PositionIsIndex(sorted, op.key);
    hide Represents, Untied, Evicted, Without, UniqueKeys, Oldest;
    ApplyInsert(entries, maxSize, Slot(op.key, op.value, t));
    assert op.key != sorted[0].key;
    UniqueHead(sorted, entries, now);
    RefSet(Erase(sorted), maxSize, op.key, op.value);
    hide Apply, RefApply, Erase, HasKey;
    HeadDropped(Erase(sorted), maxSize, Pair(op.key, op.value));
  }

  lemma HeadDropped<T>(list: seq<Pair<T>>, maxSize: nat, p: Pair<T>)
    requires list != [] && |list| >= maxSize && p.key != list[0].key
    requires forall i | 0 < i < |list| :: list[i].key != list[0].key
    ensures forall i | 0 <= i < |RefInsert(list, maxSize, p)| :: RefInsert(list, maxSize, p)[i].key != list[0].key
  {
    assert RefInsert(list, maxSize, p) == list[1..] + [p];
  }

  lemma UniqueHead<T>(sorted: seq<Slot<T>>, entries: seq<Slot<T>>, now: int)
    requires Represents(sorted, entries, now)
    ensures |sorted| == |entries|
    ensures forall i | 0 < i < |sorted| :: sorted[i].key != sorted[0].key
  {
  }

  /** Under a tie the scan evicts another entry than the least recently used one. */
  lemma OtherVictim<T>(sorted: seq<Slot<T>>, entries: seq<Slot<T>>, now: int)
    requires Represents(sorted, entries, now) && !Untied(sorted, entries)
    ensures sorted != [] && entries != [] && sorted[0] in Evicted(entries)
  {
    SameVictim(sorted, entries, now);
    var o := Oldest(entries);
    assert sorted[0] in entries;
    SameIndex(sorted, entries, now, sorted[0].key);
    assert Index(entries, entries[o].key) == o;
    hide Represents, Untied, DropAt, Without, Oldest;
    WithoutMembers(entries, entries[o].key);
  }

  // ----- Runs

  datatype Event<+T> = Event(op: Op<T>, time: int)

  function RunCache<T>(entries: seq<Slot<T>>, maxSize: nat, events: seq<Event<T>>): (seq<Slot<T>>, seq<Option<T>>)
    decreases |events|
  {
    if events == [] then (entries, [])
    else
      var (next, out) := Apply(entries, maxSize, events[0].op, events[0].time);
      var (last, outs) := RunCache(next, maxSize, events[1..]);
      (last, [out] + outs)
  }

  function RunReference<T>(list: seq<Pair<T>>, maxSize: nat, events: seq<Event<T>>): (seq<Pair<T>>, seq<Option<T>>)
    decreases |events|
  {
    if events == [] then (list, [])
    else
      var (next, out) := RefApply(list, maxSize, events[0].op);
      var (last, outs) := RunReference(next, maxSize, events[1..]);
      (last, [out] + outs)
  }

  /** Times do not decrease from `now` on, and no empty key is set. */
  predicate Timely<T>(events: seq<Event<T>>, now: int) {
    events != [] ==>
      && events[0].time >= now
      && (events[0].op.SetOp? ==> events[0].op.key != "")
      && Timely(events[1..], events[0].time)
  }

  /** No eviction of the run meets a tie. */
  predicate UntiedRun<T>(sorted: seq<Slot<T>>, entries: seq<Slot<T>>, maxSize: nat, events: seq<Event<T>>)
    decreases |events|
  {
    events != [] ==>
      var Event(op, t) := events[0];
      && (Evicts(entries, maxSize, op) ==> Untied(sorted, entries))
      && UntiedRun(Recency(sorted, maxSize, op, t), Apply(entries, maxSize, op, t).0, maxSize, events[1..])
  }

  /** On every run whose clock does not run backwards and whose evictions meet no tie, the scanning
      cache returns what the recency list returns, and ends with the same entries: those of the list,
      in order of use. */
  lemma {:induction false} Refinement<T>(sorted: seq<Slot<T>>, entries: seq<Slot<T>>, now: int, maxSize: nat,
                                         events: seq<Event<T>>)
    returns (final: seq<Slot<T>>, end: int)
    requires Represents(sorted, entries, now) && Timely(events, now) && maxSize >= 1
    requires UntiedRun(sorted, entries, maxSize, events)
    ensures Represents(final, RunCache(entries, maxSize, events).0, end)
    ensures Erase(final) == RunReference(Erase(sorted), maxSize, events).0
    ensures RunCache(entries, maxSize, events).1 == RunReference(Erase(sorted), maxSize, events).1
    decreases |events|
  {
    hide Apply, RefApply, Represents, Erase, Recency, Untied, Evicts;
    if events == [] {
      final, end := sorted, now;
    } else {
      var Event(op, t) := events[0];
      SimulateStep(sorted, entries, now, maxSize, op, t);
      var next := Recency(sorted, maxSize, op, t);
      final, end := Refinement(next, Apply(entries, maxSize, op, t).0, t, maxSize, events[1..]);
    }
  }

  /** The cache agrees with the reference now and after every event. */
  ghost predicate AgreesThroughout<T(!new)>(entries: seq<Slot<T>>, list: seq<Pair<T>>, now: int, maxSize: nat,
                                      events: seq<Event<T>>)
    decreases |events|
  {
    && Agrees(entries, list, now)
    && (events != [] ==>
          var Event(op, t) := events[0];
          AgreesThroughout(Apply(entries, maxSize, op, t).0, RefApply(list, maxSize, op).0, t, maxSize, events[1..]))
  }

  /** The cache is the recency list at every point of a run exactly if no eviction meets a tie. */
  lemma {:induction false} RefinementIsExact<T(!new)>(sorted: seq<Slot<T>>, entries: seq<Slot<T>>, now: int,
                                                        maxSize: nat, events: seq<Event<T>>)
    requires Represents(sorted, entries, now) && Timely(events, now) && maxSize >= 1
    ensures AgreesThroughout(entries, Erase(sorted), now, maxSize, events)
            <==> UntiedRun(sorted, entries, maxSize, events)
    decreases |events|
  {
    hide Apply, RefApply, Represents, Erase, Recency, Untied, Evicts;
    if events != [] {
      var Event(op, t) := events[0];
      StepIsExact(sorted, entries, now, maxSize, op, t);
      if Evicts(entries, maxSize, op) ==> Untied(sorted, entries) {
        SimulateStep(sorted, entries, now, maxSize, op, t);
        RefinementIsExact(Recency(sorted, maxSize, op, t), Apply(entries, maxSize, op, t).0, t, maxSize, events[1..]);
      }
    }
  }

  /** Every access has its own time. */
  predicate StrictlyTimely<T>(events: seq<Event<T>>, now: int) {
    events != [] ==> events[0].time > now && StrictlyTimely(events[1..], events[0].time)
  }

  lemma {:induction false} StrictIsUntied<T>(sorted: seq<Slot<T>>, entries: seq<Slot<T>>, now: int, maxSize: nat,
                                             events: seq<Event<T>>)
    requires Represents(sorted, entries, now) && Increasing(sorted) && maxSize >= 1
    requires Timely(events, now) && StrictlyTimely(events, now)
    ensures UntiedRun(sorted, entries, maxSize, events)
    decreases |events|
  {
    if events != [] {
      var Event(op, t) := events[0];
      IncreasingUntied(sorted, entries, now);
      SimulateStep(sorted, entries, now, maxSize, op, t);
      IncreasingStep(sorted, entries, now, maxSize, op, t);
      hide Apply, RefApply, Represents, Increasing, Recency, Untied, Evicts;
      StrictIsUntied(Recency(sorted, maxSize, op, t), Apply(entries, maxSize, op, t).0, t, maxSize, events[1..]);
    }
  }

  lemma IncreasingUntied<T>(sorted: seq<Slot<T>>, entries: seq<Slot<T>>, now: int)
    requires Represents(sorted, entries, now) && Increasing(sorted)
    ensures Untied(sorted, entries)
  {
    forall j | 0 <= j < |entries| && sorted != [] && j < Index(entries, sorted[0].key)
      ensures entries[j].last != sorted[0].last
    {
      assert entries[j] in sorted;
    }
  }

  lemma IncreasingStep<T>(sorted: seq<Slot<T>>, entries: seq<Slot<T>>, now: int, maxSize: nat, op: Op<T>, t: int)
    requires Represents(sorted, entries, now) && Increasing(sorted) && t > now
    ensures Increasing(Recency(sorted, maxSize, op, t))
  {
    forall s | s in sorted ensures s.last < t {
      assert s in entries;
    }
    if !op.ClearOp? {
      WithoutMembers(sorted, op.key);
      var key := op.key;
      hide Represents, UniqueKeys, Without, DropAt;
      if op.GetOp? && HasKey(sorted, key) {
        IncreasingSnoc(Without(sorted, key), Slot(key, sorted[Index(sorted, key)].value, t));
      } else if op.SetOp? {
        hide Increasing;
        var kept := if HasKey(sorted, key) then Without(sorted, key)
                    else if |sorted| >= maxSize && sorted != [] then sorted[1..] else sorted;
        IncreasingTail(sorted);
        IncreasingSnoc(kept, Slot(key, op.value, t));
      }
    }
  }

  lemma IncreasingTail<T>(slots: seq<Slot<T>>)
    requires Increasing(slots)
    ensures slots != [] ==> Increasing(slots[1..]) && forall s | s in slots[1..] :: s in slots
  {
  }

  lemma IncreasingSnoc<T>(slots: seq<Slot<T>>, s: Slot<T>)
    requires Increasing(slots) && forall x | x in slots :: x.last < s.last
    ensures Increasing(slots + [s])
  {
    assert forall i | 0 <= i < |slots| :: slots[i] in slots;
  }

  /** From the empty cache, with a strictly increasing clock: the cache is the recency list. */
  lemma RefinementFromEmpty<T(!new)>(maxSize: nat, events: seq<Event<T>>, now: int)
    requires Timely(events, now) && StrictlyTimely(events, now) && maxSize >= 1
    ensures RunCache([], maxSize, events).1 == RunReference([], maxSize, events).1
    ensures exists end :: Agrees(RunCache([], maxSize, events).0, RunReference([], maxSize, events).0, end)
  {
    var none: seq<Slot<T>> := [];
    StrictIsUntied(none, none, now, maxSize, events);
    var final, end := Refinement(none, none, now, maxSize, events);
    assert Erase(none) == [];
    assert Agrees(RunCache([], maxSize, events).0, RunReference([], maxSize, events).0, end);
  }

  ghost predicate Bounded<T>(entries: seq<Slot<T>>, maxSize: nat) {
    |entries| <= maxSize && UniqueKeys(entries) && forall s | s in entries :: s.key != ""
  }

  lemma EvictedBound<T>(entries: seq<Slot<T>>, maxSize: nat, key: string)
    requires Bounded(entries, maxSize) && entries != [] && !HasKey(entries, key)
    ensures Bounded(Evicted(entries), maxSize) && |Evicted(entries)| < |entries|
    ensures !HasKey(Evicted(entries), key)
  {
    assert entries[Oldest(entries)] in entries;
    WithoutMembers(entries, entries[Oldest(entries)].key);
    var e := Evicted(entries);
    KeyMember(e, key);
  }

  /** Whatever the clock does, the cache never outgrows its capacity. */
  lemma SizeBound<T>(entries: seq<Slot<T>>, maxSize: nat, op: Op<T>, t: int)
    requires Bounded(entries, maxSize) && maxSize >= 1
    requires op.SetOp? ==> op.key != ""
    ensures Bounded(Apply(entries, maxSize, op, t).0, maxSize)
  {
    hide Evicted;
    match op
    case DeleteOp(key) => WithoutMembers(entries, key);
    case ClearOp =>
    case GetOp(key) =>
      if HasKey(entries, key) {
        var i := Index(entries, key);
        UpdateUnique(entries, i, Slot(key, entries[i].value, t));
      }
    case SetOp(key, value) =>
      var s := Slot(key, value, t);
      if HasKey(entries, key) {
        UpdateUnique(entries, Index(entries, key), s);
      } else if |entries| >= maxSize {
        EvictedBound(entries, maxSize, key);
      }
  }

  /** Two accesses in the same millisecond are enough for a tie: `a` was read after `b` was written, the
      list evicts `b`, the scan evicts `a`. */
  lemma TieEvictsRecent(a: string, b: string, c: string, t: int)
    requires a != b && b != c && a != c && a != "" && b != "" && c != ""
    ensures var entries, list := [Slot(a, 0, t), Slot(b, 0, t)], [Pair(a, 0), Pair(b, 0)];
            var read, used := Apply(entries, 2, GetOp(a), t).0, RefApply(list, 2, GetOp(a)).0;
            && Apply(read, 2, SetOp(c, 0), t).0 == [Slot(b, 0, t), Slot(c, 0, t)]
            && RefApply(used, 2, SetOp(c, 0)).0 == [Pair(a, 0), Pair(c, 0)]
  {
    var x, y := Slot(a, 0, t), Slot(b, 0, t);
    var p, q := Pair(a, 0), Pair(b, 0);
    assert [x, y][1..] == [y] && [p, q][1..] == [q] && [x, y][..1] == [x];
    assert Index([x, y], a) == 0 && [x, y][0 := x] == [x, y];
    assert Oldest([x]) == 0;
    assert Oldest([x, y]) == 0 && DropAt([x, y], 0) == [y];
    assert Index([y], c) == 1 && Index([x, y], c) == 2;
    assert Position([p, q], a) == 0 && Use([p, q], 0, 0) == [q, p];
    assert [q, p][1..] == [p] && Position([p], c) == 1 && Position([q, p], c) == 2;
  }

  /** At capacity one more entry fits only if the victim has the empty key, which is never deleted. */
  lemma EmptyKeyStays<T>(entries: seq<Slot<T>>, key: string, v: T, t: int)
    requires UniqueKeys(entries) && entries != [] && !HasKey(entries, key)
    ensures |Apply(entries, |entries|, SetOp(key, v), t).0|
         == |entries| + if entries[Oldest(entries)].key == "" then 1 else 0
  {
    WithoutMembers(entries, entries[Oldest(entries)].key);
  }
}
