/** The position index shared by the insertion-ordered tables: open addressing over the
    positions of an entry vector. A slot holds a position plus one, or zero for none.
 */
module HashIndexes {
  import opened Utf8

  /** How keys are compared and hashed. `valid` says which keys the two are lawful on. */
  datatype Rule<!K> = Rule(same: (K, K) -> bool, hash: K -> nat, valid: K -> bool)

  const INDEX_THRESHOLD := 8

  ghost predicate Lawful<K(!new)>(rule: Rule<K>) {
    && (forall a, b | rule.valid(a) && rule.valid(b) && rule.same(a, b) :: rule.same(b, a) && rule.hash(a) == rule.hash(b))
    && (forall a, b, c | rule.valid(a) && rule.valid(b) && rule.valid(c) && rule.same(a, b) && rule.same(b, c) ::
          rule.same(a, c))
  }

  lemma SameBack<K(!new)>(rule: Rule<K>, a: K, b: K)
    requires Lawful(rule) && rule.valid(a) && rule.valid(b) && rule.same(a, b)
    ensures rule.same(b, a) && rule.hash(a) == rule.hash(b)
  {}

  lemma SameThrough<K(!new)>(rule: Rule<K>, a: K, b: K, c: K)
    requires Lawful(rule) && rule.valid(a) && rule.valid(b) && rule.valid(c) && rule.same(a, b) && rule.same(b, c)
    ensures rule.same(a, c)
  {}

  // The plain table: a sequence of keys searched from the front

  /** The first position whose key is the same. */
  function Position<K>(rule: Rule<K>, keys: seq<K>, key: K): (r: Option<nat>)
    ensures r.Some? ==> r.value < |keys| && rule.same(keys[r.value], key)
    ensures r.Some? ==> forall i | 0 <= i < r.value :: !rule.same(keys[i], key)
    ensures r.None? ==> forall i | 0 <= i < |keys| :: !rule.same(keys[i], key)
  {
    if keys == [] then None
    else if rule.same(keys[0], key) then Some(0)
    else match Position(rule, keys[1..], key)
      case None => None
      case Some(p) => Some(p + 1)
  }

  ghost predicate Distinct<K>(rule: Rule<K>, keys: seq<K>) {
    forall i, j | 0 <= i < j < |keys| :: !rule.same(keys[i], keys[j])
  }

  ghost predicate AllValid<K>(rule: Rule<K>, keys: seq<K>) {
    forall i | 0 <= i < |keys| :: rule.valid(keys[i])
  }

  // The index

  /** The slot `k` steps after `h`, going round. */
  function Step(h: nat, k: nat, size: nat): (s: nat)
    requires h < size && k < size
    ensures s < size
  {
    if h + k < size then h + k else h + k - size
  }

  /** How many steps after `h` slot `s` comes. */
  function Offset(h: nat, s: nat, size: nat): (k: nat)
    requires h < size && s < size
    ensures k < size && Step(h, k, size) == s
  {
    if s >= h then s - h else s + size - h
  }

  function Home<K>(rule: Rule<K>, key: K, size: nat): (h: nat)
    requires size > 0
    ensures h < size
  {
    rule.hash(key) % size
  }

  /** No empty slot on the way from where a key belongs to where it is. */
  ghost predicate Reached<K>(rule: Rule<K>, keys: seq<K>, index: seq<nat>, s: nat)
    requires s < |index| && 0 < index[s] <= |keys|
  {
    var h := Home(rule, keys[index[s] - 1], |index|);
    forall k | 0 <= k < Offset(h, s, |index|) :: index[Step(h, k, |index|)] != 0
  }

  predicate Present(index: seq<nat>, p: nat) {
    p + 1 in index
  }

  /** The first `n` positions are each in one slot, reached from where its key belongs. */
  ghost predicate Filled<K>(rule: Rule<K>, keys: seq<K>, n: nat, index: seq<nat>) {
    && n <= |keys| && |index| > 0
    && (forall s | 0 <= s < |index| :: index[s] <= n)
    && (forall s, t | 0 <= s < t < |index| :: index[s] != 0 ==> index[s] != index[t])
    && (forall p | 0 <= p < n :: Present(index, p))
    && (forall s | 0 <= s < |index| && index[s] != 0 :: Reached(rule, keys, index, s))
  }

  /** At most three quarters full, the next entry counted. */
  predicate Roomy(n: nat, size: nat) {
    (n + 1) * 4 <= size * 3
  }

  predicate PowerOfTwo(n: nat) {
    n == 1 || (n > 1 && n % 2 == 0 && PowerOfTwo(n / 2))
  }

  ghost predicate Passed<K>(rule: Rule<K>, keys: seq<K>, index: seq<nat>, key: K, s: nat)
    requires s < |index|
  {
    0 < index[s] <= |keys| && !rule.same(keys[index[s] - 1], key)
  }

  /** The first `k` slots from where the key belongs hold other keys. */
  ghost predicate PassedAll<K>(rule: Rule<K>, keys: seq<K>, index: seq<nat>, key: K, k: nat)
    requires k <= |index| && |index| > 0
  {
    forall j | 0 <= j < k :: Passed(rule, keys, index, key, Step(Home(rule, key, |index|), j, |index|))
  }

  /** Probing stops `k` steps on, at an empty slot or at the key. */
  ghost predicate Stops<K>(rule: Rule<K>, keys: seq<K>, index: seq<nat>, key: K, k: nat, slot: nat) {
    && k < |index| && slot == Step(Home(rule, key, |index|), k, |index|)
    && PassedAll(rule, keys, index, key, k)
    && (index[slot] == 0 || (index[slot] <= |keys| && rule.same(keys[index[slot] - 1], key)))
  }

  /** Some slot is empty. */
  lemma SomeSlotIsEmpty<K>(rule: Rule<K>, keys: seq<K>, n: nat, index: seq<nat>) returns (s: nat)
    requires Filled(rule, keys, n, index) && Roomy(n, |index|)
    ensures s < |index| && index[s] == 0
  {
    if forall i | 0 <= i < |index| :: index[i] != 0 {
      Pigeonhole(index, n);
    }
    s :| 0 <= s < |index| && index[s] == 0;
  }

  /** Distinct numbers from 1 to `n` are at most `n` many. */
  lemma {:induction false} Pigeonhole(s: seq<nat>, n: nat)
    requires forall i | 0 <= i < |s| :: 0 < s[i] <= n
    requires forall i, j | 0 <= i < j < |s| :: s[i] != s[j]
    ensures |s| <= n
    decreases n
  {
    if s != [] {
      assert 0 < s[0] <= n;
      if i :| 0 <= i < |s| && s[i] == n {
        Pigeonhole(s[..i] + s[i + 1..], n - 1);
      } else {
        Pigeonhole(s, n - 1);
      }
    }
  }

  /** Probing cannot go round. */
  lemma NotAllPassed<K>(rule: Rule<K>, keys: seq<K>, n: nat, index: seq<nat>, key: K)
    requires Filled(rule, keys, n, index) && Roomy(n, |index|)
    ensures !PassedAll(rule, keys, index, key, |index|)
  {
    var s := SomeSlotIsEmpty(rule, keys, n, index);
    var k := Offset(Home(rule, key, |index|), s, |index|);
    assert !Passed(rule, keys, index, key, Step(Home(rule, key, |index|), k, |index|));
  }

  /** Where probing stops decides like the search from the front does: at an empty slot
      when no key is the same, otherwise at the one position whose key is. */
  lemma StopIsPosition<K(!new)>(rule: Rule<K>, keys: seq<K>, index: seq<nat>, key: K, k: nat, slot: nat)
    requires Lawful(rule) && AllValid(rule, keys) && rule.valid(key) && Distinct(rule, keys)
    requires Filled(rule, keys, |keys|, index) && Stops(rule, keys, index, key, k, slot)
    ensures Position(rule, keys, key) == if index[slot] == 0 then None else Some(index[slot] - 1)
  {
    match Position(rule, keys, key) {
      case None =>
      case Some(p) =>
        SameBack(rule, keys[p], key);
        assert Present(index, p);
        var s :| 0 <= s < |index| && index[s] == p + 1;
        StopsBefore(rule, keys, index, key, k, slot, s);
        OnlyOneIsSame(rule, keys, key, p, index[slot] - 1);
    }
  }

  lemma OnlyOneIsSame<K(!new)>(rule: Rule<K>, keys: seq<K>, key: K, p: nat, q: nat)
    requires Lawful(rule) && AllValid(rule, keys) && rule.valid(key) && Distinct(rule, keys)
    requires p < |keys| && q < |keys| && rule.same(keys[p], key) && rule.same(keys[q], key)
    ensures p == q
  {
    SameBack(rule, keys[p], key);
    SameBack(rule, keys[q], key);
    SameThrough(rule, keys[p], key, keys[q]);
    SameThrough(rule, keys[q], key, keys[p]);
  }

  /** Probing does not stop at an empty slot before the key. */
  lemma StopsBefore<K>(rule: Rule<K>, keys: seq<K>, index: seq<nat>, key: K, k: nat, slot: nat, s: nat)
    requires Filled(rule, keys, |keys|, index) && Stops(rule, keys, index, key, k, slot)
    requires s < |index| && index[s] != 0 && rule.same(keys[index[s] - 1], key)
    requires rule.hash(keys[index[s] - 1]) == rule.hash(key)
    ensures index[slot] != 0
  {
    var h := Home(rule, key, |index|);
    var d := Offset(h, s, |index|);
    assert Reached(rule, keys, index, s);
    assert d < k ==> Passed(rule, keys, index, key, Step(h, d, |index|));
    assert k < d ==> index[Step(h, k, |index|)] != 0;
  }

  /** A key that none before it is the same as is put where probing stops. */
  lemma FillNext<K>(rule: Rule<K>, keys: seq<K>, n: nat, index: seq<nat>, k: nat, slot: nat)
    requires Filled(rule, keys, n, index) && n < |keys| && Distinct(rule, keys)
    requires Stops(rule, keys, index, keys[n], k, slot)
    ensures Filled(rule, keys, n + 1, index[slot := n + 1])
  {
    assert index[slot] == 0;
    var after := index[slot := n + 1];
    forall p | 0 <= p < n + 1 ensures Present(after, p) {
      if p < n {
        assert Present(index, p);
        var s :| 0 <= s < |index| && index[s] == p + 1;
        assert after[s] == p + 1;
      } else {
        assert after[slot] == p + 1;
      }
    }
    forall s | 0 <= s < |after| && after[s] != 0 ensures Reached(rule, keys, after, s) {
      StillReached(rule, keys, n, index, k, slot, s);
    }
  }

  lemma StillReached<K>(rule: Rule<K>, keys: seq<K>, n: nat, index: seq<nat>, k: nat, slot: nat, s: nat)
    requires Filled(rule, keys, n, index) && n < |keys|
    requires Stops(rule, keys, index, keys[n], k, slot) && index[slot] == 0
    requires s < |index| && index[slot := n + 1][s] != 0
    ensures Reached(rule, keys, index[slot := n + 1], s)
  {
    var after := index[slot := n + 1];
    var h := Home(rule, keys[after[s] - 1], |index|);
    forall j | 0 <= j < Offset(h, s, |index|) ensures after[Step(h, j, |index|)] != 0 {
      if s == slot {
        assert Offset(h, s, |index|) == k;
        assert Passed(rule, keys, index, keys[n], Step(h, j, |index|));
      } else {
        assert Reached(rule, keys, index, s);
        assert index[Step(h, j, |index|)] != 0;
      }
    }
  }

  /** An entry added at the end disturbs nothing. */
  lemma StillFilled<K>(rule: Rule<K>, keys: seq<K>, n: nat, index: seq<nat>, key: K)
    requires Filled(rule, keys, n, index)
    ensures Filled(rule, keys + [key], n, index)
  {
    forall s | 0 <= s < |index| && index[s] != 0 ensures Reached(rule, keys + [key], index, s) {
      assert Reached(rule, keys, index, s);
    }
  }

  lemma NothingFilled<K>(rule: Rule<K>, keys: seq<K>, index: seq<nat>)
    requires |index| > 0 && forall s | 0 <= s < |index| :: index[s] == 0
    ensures Filled(rule, keys, 0, index)
  {}

  lemma TwiceAPower(n: nat)
    requires n > 0 && PowerOfTwo(n)
    ensures PowerOfTwo(n * 2)
  {}

  // The methods the tables share

  function Keys<E, K>(entries: seq<E>, keyOf: E -> K): (keys: seq<K>)
    ensures |keys| == |entries| && forall i | 0 <= i < |entries| :: keys[i] == keyOf(entries[i])
  {
    seq(|entries|, i requires 0 <= i < |entries| => keyOf(entries[i]))
  }

  lemma NonePassed<K>(rule: Rule<K>, keys: seq<K>, n: nat, index: seq<nat>, key: K)
    requires Filled(rule, keys, n, index)
    ensures |index| > 0 && PassedAll(rule, keys, index, key, 0)
    ensures rule.hash(key) % |index| == Home(rule, key, |index|) == Step(Home(rule, key, |index|), 0, |index|)
    ensures forall s | 0 <= s < |index| :: index[s] <= |keys|
  {}

  lemma OneMorePassed<K>(rule: Rule<K>, keys: seq<K>, n: nat, index: seq<nat>, key: K, k: nat)
    requires Filled(rule, keys, n, index) && Roomy(n, |index|) && k < |index|
    requires PassedAll(rule, keys, index, key, k)
    requires Passed(rule, keys, index, key, Step(Home(rule, key, |index|), k, |index|))
    ensures k + 1 < |index| && PassedAll(rule, keys, index, key, k + 1)
    ensures Step(Home(rule, key, |index|), k + 1, |index|) == (Step(Home(rule, key, |index|), k, |index|) + 1) % |index|
  {
    OneFurther(rule, keys, index, key, k);
    NotAllPassed(rule, keys, n, index, key);
    hide Filled, Passed, PassedAll, Step, Home, Roomy;
    if k + 1 < |index| {
      NextStep(Home(rule, key, |index|), k, |index|);
    }
  }

  lemma OneFurther<K>(rule: Rule<K>, keys: seq<K>, index: seq<nat>, key: K, k: nat)
    requires k < |index| && PassedAll(rule, keys, index, key, k)
    requires Passed(rule, keys, index, key, Step(Home(rule, key, |index|), k, |index|))
    ensures PassedAll(rule, keys, index, key, k + 1)
  {
    hide Passed, Step, Home;
  }

  lemma NextStep(h: nat, k: nat, size: nat)
    requires h < size && k + 1 < size
    ensures Step(h, k + 1, size) == (Step(h, k, size) + 1) % size
  {
    if Step(h, k, size) + 1 < size {
      assert (Step(h, k, size) + 1) % size == Step(h, k, size) + 1;
    }
  }

  /** Walks from the key's home slot to the first that is empty or leads to the key. */
  method ProbeIndex<E, K>(rule: Rule<K>, index: seq<nat>, entries: seq<E>, keyOf: E -> K, key: K, ghost n: nat)
    returns (slot: nat)
    requires Filled(rule, Keys(entries, keyOf), n, index) && Roomy(n, |index|)
    ensures slot < |index| && exists k :: Stops(rule, Keys(entries, keyOf), index, key, k, slot)
  {
    hide Filled, PassedAll, Roomy, Home, Step;
    ghost var keys := Keys(entries, keyOf);
    NonePassed(rule, keys, n, index, key);
    slot := rule.hash(key) % |index|;
    ghost var k := 0;
    while index[slot] != 0 && !rule.same(keyOf(entries[index[slot] - 1]), key)
      invariant k < |index| && slot == Step(Home(rule, key, |index|), k, |index|)
      invariant PassedAll(rule, keys, index, key, k) && index[slot] <= |keys|
      decreases |index| - k
    {
      OneMorePassed(rule, keys, n, index, key, k);
      k := k + 1;
      slot := (slot + 1) % |index|;
    }
    assert Stops(rule, keys, index, key, k, slot);
  }

  /** An index made afresh: none below the threshold, otherwise the smallest power of two
      from 16 on that the entries fill to three quarters at most. */
  method RebuildPositions<E, K>(rule: Rule<K>, entries: seq<E>, keyOf: E -> K) returns (index: seq<nat>)
    requires Distinct(rule, Keys(entries, keyOf))
    ensures |entries| < INDEX_THRESHOLD ==> index == []
    ensures |entries| >= INDEX_THRESHOLD ==>
              && PowerOfTwo(|index|) && |index| >= 16 && Roomy(|entries|, |index|)
              && (|index| > 16 ==> !Roomy(|entries|, |index| / 2))
              && Filled(rule, Keys(entries, keyOf), |entries|, index)
  {
    if |entries| < INDEX_THRESHOLD {
      return [];
    }
    var capacity := 16;
    assert PowerOfTwo(16);
    while capacity * 3 < (|entries| + 1) * 4
      invariant PowerOfTwo(capacity) && capacity >= 16
      invariant capacity > 16 ==> !Roomy(|entries|, capacity / 2)
    {
      TwiceAPower(capacity);
      capacity := capacity * 2;
    }
    index := seq(capacity, _ => 0);
    ghost var keys := Keys(entries, keyOf);
    NothingFilled(rule, keys, index);
    for position := 0 to |entries|
      invariant |index| == capacity && Filled(rule, keys, position, index)
    {
      var slot := ProbeIndex(rule, index, entries, keyOf, keyOf(entries[position]), position);
      ghost var k :| Stops(rule, keys, index, keys[position], k, slot);
      FillNext(rule, keys, position, index, k, slot);
      index := index[slot := position + 1];
    }
  }
}
