/** The insertion-ordered tables: dictionaries, sets and the fields of an object. Each keeps
    its entries in a vector and, from eight entries on, an index of their positions; each
    behaves as a plain search through the vector would.
 */
module HashTables {
  import opened Utf8
  import opened HashIndexes

  /** The index of a table: none below the threshold, otherwise complete and roomy. */
  ghost predicate Indexed<K>(rule: Rule<K>, keys: seq<K>, index: seq<nat>) {
    && (index == [] <==> |keys| < INDEX_THRESHOLD)
    && (index != [] ==>
          |index| >= 16 && PowerOfTwo(|index|) && Roomy(|keys|, |index|) && Filled(rule, keys, |keys|, index))
  }

  /** What every table keeps. */
  ghost predicate Kept<K(!new)>(rule: Rule<K>, keys: seq<K>, index: seq<nat>) {
    Lawful(rule) && AllValid(rule, keys) && Distinct(rule, keys) && Indexed(rule, keys, index)
  }

  lemma NothingKept<K(!new)>(rule: Rule<K>)
    requires Lawful(rule)
    ensures Kept(rule, [], [])
  {}

  lemma PositionIs<K>(rule: Rule<K>, keys: seq<K>, key: K, i: nat)
    requires i <= |keys| && forall j | 0 <= j < i :: !rule.same(keys[j], key)
    requires i < |keys| ==> rule.same(keys[i], key)
    ensures Position(rule, keys, key) == if i < |keys| then Some(i) else None
  {}

  /** Where a key is: by a scan without an index, by probing with one. */
  method Locate<E, K(!new)>(rule: Rule<K>, index: seq<nat>, entries: seq<E>, keyOf: E -> K, key: K)
    returns (p: Option<nat>)
    requires Kept(rule, Keys(entries, keyOf), index) && rule.valid(key)
    ensures p == Position(rule, Keys(entries, keyOf), key)
  {
    ghost var keys := Keys(entries, keyOf);
    if index == [] {
      for i := 0 to |entries|
        invariant forall j | 0 <= j < i :: !rule.same(keys[j], key)
      {
        if rule.same(keyOf(entries[i]), key) {
          PositionIs(rule, keys, key, i);
          return Some(i);
        }
      }
      PositionIs(rule, keys, key, |entries|);
      return None;
    }
    hide Filled, Lawful, AllValid, Distinct, Position;
    var slot := ProbeIndex(rule, index, entries, keyOf, key, |entries|);
    ghost var k :| Stops(rule, keys, index, key, k, slot);
    StopIsPosition(rule, keys, index, key, k, slot);
    return if index[slot] == 0 then None else Some(index[slot] - 1);
  }

  lemma OneMoreKey<K(!new)>(rule: Rule<K>, keys: seq<K>, key: K)
    requires AllValid(rule, keys) && Distinct(rule, keys) && rule.valid(key) && Position(rule, keys, key).None?
    ensures AllValid(rule, keys + [key]) && Distinct(rule, keys + [key])
  {}

  lemma OneKeyFewer<K>(rule: Rule<K>, keys: seq<K>, p: nat)
    requires AllValid(rule, keys) && Distinct(rule, keys) && p < |keys|
    ensures AllValid(rule, keys[..p] + keys[p + 1..]) && Distinct(rule, keys[..p] + keys[p + 1..])
  {}

  /** The index once an entry has been added at the end: made afresh when there was none or
      more than three quarters of it would be in use, otherwise the new position put in its place. */
  method IndexLast<E, K(!new)>(rule: Rule<K>, index: seq<nat>, entries: seq<E>, keyOf: E -> K, ghost before: seq<K>)
    returns (updated: seq<nat>)
    requires entries != [] && Keys(entries, keyOf) == before + [keyOf(entries[|entries| - 1])]
    requires Kept(rule, before, index) && rule.valid(keyOf(entries[|entries| - 1]))
    requires Position(rule, before, keyOf(entries[|entries| - 1])).None?
    ensures Kept(rule, Keys(entries, keyOf), updated)
  {
    hide Lawful, AllValid, Distinct, Position, Filled, PowerOfTwo;
    ghost var keys := Keys(entries, keyOf);
    OneMoreKey(rule, before, keyOf(entries[|entries| - 1]));
    if |entries| < INDEX_THRESHOLD {
      return index;
    }
    if index == [] || (|entries| + 1) * 4 > |index| * 3 {
      updated := RebuildPositions(rule, entries, keyOf);
    } else {
      StillFilled(rule, before, |before|, index, keyOf(entries[|entries| - 1]));
      var slot := ProbeIndex(rule, index, entries, keyOf, keyOf(entries[|entries| - 1]), |before|);
      ghost var k :| Stops(rule, keys, index, keys[|before|], k, slot);
      FillNext(rule, keys, |before|, index, k, slot);
      updated := index[slot := |entries|];
    }
  }

  // Association lists

  function First<K, V>(entry: (K, V)): K {
    entry.0
  }

  function EntryKeys<K, V>(entries: seq<(K, V)>): seq<K> {
    Keys(entries, First)
  }

  function Lookup<K, V>(rule: Rule<K>, entries: seq<(K, V)>, key: K): Option<V> {
    match Position(rule, EntryKeys(entries), key)
    case None => None
    case Some(p) => Some(entries[p].1)
  }

  /** A key keeps its place; a new one goes to the end. */
  function Put<K, V>(rule: Rule<K>, entries: seq<(K, V)>, key: K, value: V): seq<(K, V)> {
    match Position(rule, EntryKeys(entries), key)
    case None => entries + [(key, value)]
    case Some(p) => entries[p := (entries[p].0, value)]
  }

  /** The others close up, in their order. */
  function Removed<K, V>(rule: Rule<K>, entries: seq<(K, V)>, key: K): seq<(K, V)> {
    match Position(rule, EntryKeys(entries), key)
    case None => entries
    case Some(p) => entries[..p] + entries[p + 1..]
  }

  /** Two keys that are the same are found together. */
  lemma SamePosition<K(!new)>(rule: Rule<K>, keys: seq<K>, a: K, b: K)
    requires Lawful(rule) && AllValid(rule, keys) && rule.valid(a) && rule.valid(b) && rule.same(a, b)
    ensures Position(rule, keys, a) == Position(rule, keys, b)
  {
    forall i | 0 <= i < |keys| ensures rule.same(keys[i], a) <==> rule.same(keys[i], b) {
      SameBack(rule, a, b);
      if rule.same(keys[i], a) {
        SameThrough(rule, keys[i], a, b);
      }
      if rule.same(keys[i], b) {
        SameThrough(rule, keys[i], b, a);
      }
    }
    hide Lawful;
    match Position(rule, keys, a) {
      case None => PositionIs(rule, keys, b, |keys|);
      case Some(p) => PositionIs(rule, keys, b, p);
    }
  }

  /** What is put is found under every key that is the same, and nothing else changes. */
  lemma PutThenLookup<K(!new), V>(rule: Rule<K>, entries: seq<(K, V)>, key: K, value: V, other: K)
    requires Lawful(rule) && AllValid(rule, EntryKeys(entries)) && Distinct(rule, EntryKeys(entries))
    requires rule.valid(key) && rule.valid(other)
    ensures Lookup(rule, Put(rule, entries, key, value), other) ==
            if rule.same(key, other) then Some(value) else Lookup(rule, entries, other)
  {
    var keys := EntryKeys(entries);
    var after := EntryKeys(Put(rule, entries, key, value));
    match Position(rule, keys, key) {
      case Some(p) =>
        assert after == keys;
        PutWhereFound(rule, keys, key, p, other);
      case None =>
        assert after == keys + [key];
        PutAtEnd(rule, keys, key, other);
    }
  }

  /** A value that was put is found again exactly when its key equals itself. */
  lemma PutIsFoundExactly<K(!new), V>(rule: Rule<K>, entries: seq<(K, V)>, key: K, value: V)
    requires Lawful(rule) && AllValid(rule, EntryKeys(entries)) && Distinct(rule, EntryKeys(entries)) && rule.valid(key)
    ensures Lookup(rule, Put(rule, entries, key, value), key) == (if rule.same(key, key) then Some(value) else None)
  {
    PutThenLookup(rule, entries, key, value, key);
    var keys := EntryKeys(entries);
    if Position(rule, keys, key).Some? {
      var found := keys[Position(rule, keys, key).value];
      SameBack(rule, found, key);
      SameThrough(rule, key, found, key);
    }
  }

  lemma PutWhereFound<K(!new)>(rule: Rule<K>, keys: seq<K>, key: K, p: nat, other: K)
    requires Lawful(rule) && AllValid(rule, keys) && rule.valid(key) && rule.valid(other)
    requires Position(rule, keys, key) == Some(p)
    ensures Position(rule, keys, other) == Some(p) <==> rule.same(key, other)
  {
    if rule.same(key, other) {
      SamePosition(rule, keys, key, other);
    }
    if Position(rule, keys, other) == Some(p) {
      SameBack(rule, keys[p], key);
      SameThrough(rule, key, keys[p], other);
    }
  }

  lemma PutAtEnd<K(!new)>(rule: Rule<K>, keys: seq<K>, key: K, other: K)
    requires Lawful(rule) && AllValid(rule, keys) && rule.valid(key) && rule.valid(other)
    requires Position(rule, keys, key).None?
    ensures rule.same(key, other) ==> Position(rule, keys + [key], other) == Some(|keys|)
    ensures !rule.same(key, other) ==> Position(rule, keys + [key], other) == Position(rule, keys, other)
  {
    if rule.same(key, other) {
      SamePosition(rule, keys, key, other);
      hide Lawful;
      PositionIs(rule, keys + [key], other, |keys|);
    } else {
      hide Lawful;
      match Position(rule, keys, other) {
        case None => PositionIs(rule, keys + [key], other, |keys| + 1);
        case Some(p) => PositionIs(rule, keys + [key], other, p);
      }
    }
  }

  /** What is removed is no longer found, and nothing else changes. */
  lemma RemovedThenLookup<K(!new), V>(rule: Rule<K>, entries: seq<(K, V)>, key: K, other: K)
    requires Lawful(rule) && AllValid(rule, EntryKeys(entries)) && Distinct(rule, EntryKeys(entries))
    requires rule.valid(key) && rule.valid(other)
    ensures Lookup(rule, Removed(rule, entries, key), other) ==
            if rule.same(key, other) then None else Lookup(rule, entries, other)
  {
    var keys := EntryKeys(entries);
    match Position(rule, keys, key) {
      case None =>
        if rule.same(key, other) {
          SamePosition(rule, keys, key, other);
        }
      case Some(p) =>
        PutWhereFound(rule, keys, key, p, other);
        WithoutOne(rule, keys, p, other);
        hide Lawful, AllValid, Distinct;
        LookupWithout(rule, entries, p, other);
    }
  }

  lemma OnlyAt<K(!new)>(rule: Rule<K>, keys: seq<K>, key: K, p: nat, q: nat)
    requires Lawful(rule) && AllValid(rule, keys) && rule.valid(key) && Distinct(rule, keys)
    requires p < |keys| && q < |keys| && rule.same(keys[p], key)
    ensures rule.same(keys[q], key) ==> p == q
  {
    if rule.same(keys[q], key) {
      OnlyOneIsSame(rule, keys, key, p, q);
    }
  }

  /** The position of a key once another entry is gone. */
  function Shifted(q: Option<nat>, p: nat): Option<nat> {
    if q == None || q == Some(p) then None else if q.value < p then q else Some(q.value - 1)
  }

  lemma LookupWithout<K, V>(rule: Rule<K>, entries: seq<(K, V)>, p: nat, other: K)
    requires p < |entries|
    requires Position(rule, EntryKeys(entries)[..p] + EntryKeys(entries)[p + 1..], other) ==
             Shifted(Position(rule, EntryKeys(entries), other), p)
    ensures Lookup(rule, entries[..p] + entries[p + 1..], other) ==
            if Position(rule, EntryKeys(entries), other) == Some(p) then None else Lookup(rule, entries, other)
  {
    var less := entries[..p] + entries[p + 1..];
    assert EntryKeys(less) == EntryKeys(entries)[..p] + EntryKeys(entries)[p + 1..];
  }

  lemma WithoutOne<K(!new)>(rule: Rule<K>, keys: seq<K>, p: nat, other: K)
    requires Lawful(rule) && AllValid(rule, keys) && Distinct(rule, keys) && rule.valid(other) && p < |keys|
    ensures Position(rule, keys[..p] + keys[p + 1..], other) == Shifted(Position(rule, keys, other), p)
  {
    hide Lawful, AllValid, Distinct;
    var less := keys[..p] + keys[p + 1..];
    match Position(rule, keys, other) {
      case None =>
        hide Position;
        PositionIs(rule, less, other, |less|);
      case Some(q) =>
        hide Position;
        if q == p {
          forall i | 0 <= i < |less| ensures !rule.same(less[i], other) {
            OnlyAt(rule, keys, other, p, if i < p then i else i + 1);
          }
        }
        PositionIs(rule, less, other, if q == p then |less| else if q < p then q else q - 1);
    }
  }

  // The tables

  class DictData<K(!new), V(!new)> {
    const rule: Rule<K>
    var entries: seq<(K, V)>
    var index: seq<nat>

    ghost predicate Valid()
      reads this
    {
      Kept(rule, EntryKeys(entries), index)
    }

    constructor (rule: Rule<K>)
      requires Lawful(rule)
      ensures Valid() && this.rule == rule && entries == []
    {
      this.rule := rule;
      entries, index := [], [];
      new;
      NothingKept(rule);
    }

    method FindMutable(key: K) returns (p: Option<nat>)
      requires Valid() && rule.valid(key)
      ensures p == Position(rule, EntryKeys(entries), key)
    {
      p := Locate(rule, index, entries, First, key);
    }

    method Find(key: K) returns (value: Option<V>)
      requires Valid() && rule.valid(key)
      ensures value == Lookup(rule, entries, key)
    {
      var p := FindMutable(key);
      value := if p.None? then None else Some(entries[p.value].1);
    }

    /** Whether the key is new. */
    method Set(key: K, value: V) returns (added: bool)
      requires Valid() && rule.valid(key)
      modifies this
      ensures Valid() && entries == Put(rule, old(entries), key, value)
      ensures added == Lookup(rule, old(entries), key).None?
    {
      hide Kept, Position;
      var p := FindMutable(key);
      if p.Some? {
        assert EntryKeys(entries[p.value := (entries[p.value].0, value)]) == EntryKeys(entries);
        entries := entries[p.value := (entries[p.value].0, value)];
        return false;
      }
      ghost var before := EntryKeys(entries);
      entries := entries + [(key, value)];
      assert EntryKeys(entries) == before + [key];
      index := IndexLast(rule, index, entries, First, before);
      return true;
    }

    /** The value removed, if there was one. */
    method Erase(key: K) returns (removed: Option<V>)
      requires Valid() && rule.valid(key)
      modifies this
      ensures Valid() && entries == Removed(rule, old(entries), key)
      ensures removed == Lookup(rule, old(entries), key)
    {
      hide Lawful, AllValid, Distinct, Filled, Position, PowerOfTwo;
      var p := FindMutable(key);
      if p.None? {
        return None;
      }
      removed := Some(entries[p.value].1);
      ghost var before := EntryKeys(entries);
      entries := entries[..p.value] + entries[p.value + 1..];
      assert EntryKeys(entries) == before[..p.value] + before[p.value + 1..];
      OneKeyFewer(rule, before, p.value);
      index := RebuildPositions(rule, entries, First);
    }

    method ClearReferences()
      requires Valid()
      modifies this
      ensures Valid() && entries == []
    {
      entries, index := [], [];
      NothingKept(rule);
    }
  }

  function Itself<K>(element: K): K {
    element
  }

  class EnsembleData<K(!new)> {
    const rule: Rule<K>
    var elements: seq<K>
    var index: seq<nat>

    ghost predicate Valid()
      reads this
    {
      Kept(rule, Keys(elements, Itself), index)
    }

    constructor (rule: Rule<K>)
      requires Lawful(rule)
      ensures Valid() && this.rule == rule && elements == []
    {
      this.rule := rule;
      elements, index := [], [];
      new;
      NothingKept(rule);
    }

    method Contains(element: K) returns (r: bool)
      requires Valid() && rule.valid(element)
      ensures r <==> exists i | 0 <= i < |elements| :: rule.same(elements[i], element)
    {
      assert Keys(elements, Itself) == elements;
      var p := Locate(rule, index, elements, Itself, element);
      r := p.Some?;
    }

    method Insert(element: K) returns (added: bool)
      requires Valid() && rule.valid(element)
      modifies this
      ensures Valid() && added == Position(rule, old(elements), element).None?
      ensures elements == if added then old(elements) + [element] else old(elements)
    {
      hide Kept, Position;
      assert Keys(elements, Itself) == elements;
      var present := Contains(element);
      if present {
        return false;
      }
      ghost var before := elements;
      elements := elements + [element];
      assert Keys(elements, Itself) == before + [element];
      index := IndexLast(rule, index, elements, Itself, before);
      return true;
    }

    /** By a scan, whether or not there is an index. */
    method Erase(element: K) returns (removed: bool)
      requires Valid() && rule.valid(element)
      modifies this
      ensures Valid()
      ensures var p := Position(rule, old(elements), element);
              removed == p.Some? && elements == if p.None? then old(elements)
                                                else old(elements)[..p.value] + old(elements)[p.value + 1..]
    {
      hide Lawful, AllValid, Distinct, Filled, Position, PowerOfTwo;
      ghost var before := elements;
      assert Keys(before, Itself) == before;
      for i := 0 to |elements|
        invariant elements == before && index == old(index)
        invariant forall j | 0 <= j < i :: !rule.same(elements[j], element)
      {
        if rule.same(elements[i], element) {
          PositionIs(rule, before, element, i);
          elements := elements[..i] + elements[i + 1..];
          assert Keys(elements, Itself) == before[..i] + before[i + 1..];
          OneKeyFewer(rule, before, i);
          index := RebuildPositions(rule, elements, Itself);
          return true;
        }
      }
      PositionIs(rule, before, element, |before|);
      return false;
    }

    method ClearReferences()
      requires Valid()
      modifies this
      ensures Valid() && elements == []
    {
      elements, index := [], [];
      NothingKept(rule);
    }
  }

  /** Field names are compared as texts. */
  function NameRule(hashName: Bytes -> nat): Rule<Bytes> {
    Rule((a, b) => a == b, hashName, _ => true)
  }

  lemma NamesAreLawful(hashName: Bytes -> nat)
    ensures Lawful(NameRule(hashName))
  {}

  class FieldTable<V(!new)> {
    const hashName: Bytes -> nat
    var entries: seq<(Bytes, V)>
    var index: seq<nat>

    ghost predicate Valid()
      reads this
    {
      Kept(NameRule(hashName), EntryKeys(entries), index)
    }

    constructor (hashName: Bytes -> nat)
      ensures Valid() && this.hashName == hashName && entries == []
    {
      this.hashName := hashName;
      entries, index := [], [];
      new;
      NamesAreLawful(hashName);
      NothingKept(NameRule(hashName));
    }

    method Find(name: Bytes) returns (p: Option<nat>)
      requires Valid()
      ensures p == Position(NameRule(hashName), EntryKeys(entries), name)
    {
      p := Locate(NameRule(hashName), index, entries, First, name);
    }

    /** The value of a field; absence is the error. */
    method At(name: Bytes) returns (value: Option<V>)
      requires Valid()
      ensures value == Lookup(NameRule(hashName), entries, name)
    {
      var p := Find(name);
      value := if p.None? then None else Some(entries[p.value].1);
    }

    /** Adds a field unless there is one of that name. */
    method Emplace(name: Bytes, value: V) returns (at: nat, added: bool)
      requires Valid()
      modifies this
      ensures Valid() && at < |entries| && entries[at].0 == name
      ensures var present := Lookup(NameRule(hashName), old(entries), name).Some?;
              && added == !present
              && entries == if present then old(entries) else Put(NameRule(hashName), old(entries), name, value)
    {
      hide Kept, Position;
      var p := Find(name);
      if p.Some? {
        return p.value, false;
      }
      ghost var before := EntryKeys(entries);
      entries := entries + [(name, value)];
      assert EntryKeys(entries) == before + [name];
      index := IndexLast(NameRule(hashName), index, entries, First, before);
      return |entries| - 1, true;
    }

    method InsertOrAssign(name: Bytes, value: V) returns (at: nat, added: bool)
      requires Valid()
      modifies this
      ensures Valid() && at < |entries| && entries[at] == (name, value)
      ensures entries == Put(NameRule(hashName), old(entries), name, value)
      ensures added == Lookup(NameRule(hashName), old(entries), name).None?
    {
      hide Kept, Position;
      var p := Find(name);
      if p.Some? {
        assert EntryKeys(entries[p.value := (entries[p.value].0, value)]) == EntryKeys(entries);
        entries := entries[p.value := (entries[p.value].0, value)];
        return p.value, false;
      }
      at, added := Emplace(name, value);
    }

    /** How many fields were removed. */
    method Erase(name: Bytes) returns (count: nat)
      requires Valid()
      modifies this
      ensures Valid() && entries == Removed(NameRule(hashName), old(entries), name)
      ensures count == if Lookup(NameRule(hashName), old(entries), name).Some? then 1 else 0
    {
      hide Lawful, AllValid, Distinct, Filled, Position, PowerOfTwo;
      var p := Find(name);
      if p.None? {
        return 0;
      }
      ghost var before := EntryKeys(entries);
      entries := entries[..p.value] + entries[p.value + 1..];
      assert EntryKeys(entries) == before[..p.value] + before[p.value + 1..];
      OneKeyFewer(NameRule(hashName), before, p.value);
      index := RebuildPositions(NameRule(hashName), entries, First);
      return 1;
    }
  }
}
