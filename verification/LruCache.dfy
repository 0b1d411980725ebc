/**
 The in-memory cache with a bounded number of entries. It keeps its entries in a JavaScript Map, whose
 insertion order serves as the order of last use.
 */
module LruCaches {
  import opened Wrappers

  /** Keys are only compared with each other. */
  type Key = nat

  /** A stored value; `null` may be stored, but getOrSet takes it for a missing one. */
  datatype Value<+T> = Null | Just(value: T)

  datatype Entry<+T> = Entry(key: Key, val: Value<T>)

  // ----- The Map: entries in insertion order, one for each key -----

  function KeysOf<T>(m: seq<Entry<T>>): (keys: seq<Key>)
    ensures |keys| == |m| && forall i :: 0 <= i < |m| ==> keys[i] == m[i].key
  {
    seq(|m|, i requires 0 <= i < |m| => m[i].key)
  }

  function Find<T>(m: seq<Entry<T>>, key: Key): Option<Value<T>> {
    if m == [] then None else if m[0].key == key then Some(m[0].val) else Find(m[1..], key)
  }

  function Delete<T>(m: seq<Entry<T>>, key: Key): seq<Entry<T>> {
    if m == [] then [] else if m[0].key == key then m[1..] else [m[0]] + Delete(m[1..], key)
  }

  /** A present key keeps its place. */
  function Put<T>(m: seq<Entry<T>>, key: Key, val: Value<T>): seq<Entry<T>> {
    if m == [] then [Entry(key, val)]
    else if m[0].key == key then [Entry(key, val)] + m[1..]
    else [m[0]] + Put(m[1..], key, val)
  }

  // ----- The operations -----

  datatype Op<+T> =
    | Get(key: Key)
    | Set(key: Key, val: Value<T>)
    | GetOrSet(key: Key, computed: Value<T>)
    | Invalidate(key: Key)

  function Reinserted<T>(m: seq<Entry<T>>, key: Key, val: Value<T>): seq<Entry<T>> {
    Delete(m, key) + [Entry(key, val)]
  }

  function AfterSet<T>(m: seq<Entry<T>>, key: Key, val: Value<T>, capacity: int): seq<Entry<T>> {
    if |m| >= capacity && Find(m, key).None? && m != [] then Reinserted(m[1..], key, val) else Reinserted(m, key, val)
  }

  function After<T>(m: seq<Entry<T>>, op: Op<T>, capacity: int): seq<Entry<T>> {
    match op
    case Get(key) => (match Find(m, key) case None => m case Some(val) => Reinserted(m, key, val))
    case Set(key, val) => AfterSet(m, key, val, capacity)
    case GetOrSet(key, computed) => AfterSet(m, key, Answer(m, key, computed), capacity)
    case Invalidate(key) => Delete(m, key)
  }

  /** What getOrSet returns: the cached value, or the computed one if there is none or it is null. */
  function Answer<T>(m: seq<Entry<T>>, key: Key, computed: Value<T>): Value<T> {
    match Find(m, key)
    case Some(Just(v)) => Just(v)
    case _ => computed
  }

  class LruCache<T> {
    const capacity: int
    var cache: seq<Entry<T>>

    constructor (capacity: int)
      ensures this.capacity == capacity && cache == []
    {
      this.capacity, cache := capacity, [];
    }

    ghost predicate Valid()
      reads this
    {
      Distinct(KeysOf(cache))
    }

    method Reinsert(key: Key, val: Value<T>)
      requires Valid()
      modifies this`cache
      ensures cache == Reinserted(old(cache), key, val)
    {
      DeleteKeys(cache, key);
      WithoutExact(KeysOf(cache), key);
      PutAppends(Delete(cache, key), key, val);
      cache := Delete(cache, key);
      cache := Put(cache, key, val);
    }

    /** The key is gone, every other key keeps its value and its place. */
    method Invalidate(key: Key) returns (n: nat)
      requires Valid()
      modifies this`cache
      ensures Valid() && cache == After(old(cache), Op.Invalidate(key), capacity)
      ensures forall k :: Find(cache, k) == if k == key then None else Find(old(cache), k)
      ensures KeysOf(cache) == Without(KeysOf(old(cache)), key)
      ensures n == |old(cache)| - |cache|
    {
      StepExact(cache, Op.Invalidate(key), capacity);
      DeleteCounts(cache, key);
      forall k ensures Find(Delete(cache, key), k) == if k == key then None else Find(cache, k) {
        FindDelete(cache, key, k);
      }
      n := if Find(cache, key).Some? then 1 else 0;
      cache := Delete(cache, key);
    }

    /** A key that is found becomes the most recent one; no value changes. */
    method Get(key: Key) returns (val: Option<Value<T>>)
      requires Valid()
      modifies this`cache
      ensures cache == After(old(cache), Op.Get(key), capacity)
      ensures val == Find(old(cache), key)
      ensures Valid() && forall k :: Find(cache, k) == Find(old(cache), k)
      ensures val.None? ==> cache == old(cache)
      ensures val.Some? ==> KeysOf(cache) == Without(KeysOf(old(cache)), key) + [key]
    {
      StepExact(cache, Op.Get(key), capacity);
      FindKeys(cache, key);
      forall k ensures Find(After(cache, Op.Get(key), capacity), k) == Find(cache, k) {
        GetKeepsAll(cache, key, capacity, k);
      }
      val := Find(cache, key);
      if val.Some? {
        Reinsert(key, val.value);
      }
    }

    /** The value is found under its key, the most recent one now; a new key displaces the least recent one of a full cache. */
    method Set(key: Key, val: Value<T>)
      requires Valid()
      modifies this`cache
      ensures cache == After(old(cache), Op.Set(key, val), capacity)
      ensures Valid() && Find(cache, key) == Some(val)
      ensures forall k :: k != key && Find(cache, k).Some? ==> Find(cache, k) == Find(old(cache), k)
      ensures var keys := KeysOf(old(cache));
              KeysOf(cache) == (if |keys| >= capacity && key !in keys && keys != [] then keys[1..] else Without(keys, key)) + [key]
    {
      ghost var target := After(cache, Op.Set(key, val), capacity);
      Written(cache, Op.Set(key, val), capacity);
      forall k | k != key && Find(target, k).Some? ensures Find(target, k) == Find(cache, k) {
        ValuesKept(cache, Op.Set(key, val), capacity, k);
      }
      if |cache| >= capacity && Find(cache, key).None? {
        if |cache| > 0 {
          var leastRecentlyUsedKey := cache[0].key;
          assert KeysOf(cache[1..]) == KeysOf(cache)[1..];
          cache := Delete(cache, leastRecentlyUsedKey);
        }
      }
      Reinsert(key, val);
    }

    /** A present value other than null is returned and kept; anything else is computed, returned and stored. */
    method GetOrSet(key: Key, computed: Value<T>) returns (data: Value<T>)
      requires Valid()
      modifies this`cache
      ensures cache == After(old(cache), Op.GetOrSet(key, computed), capacity)
      ensures data == Answer(old(cache), key, computed)
      ensures var found := Find(old(cache), key);
              data == if found.Some? && found.value.Just? then found.value else computed
      ensures Valid() && Find(cache, key) == Some(data)
      ensures forall k :: k != key && Find(cache, k).Some? ==> Find(cache, k) == Find(old(cache), k)
      ensures var keys := KeysOf(old(cache));
              KeysOf(cache) == (if |keys| >= capacity && key !in keys && keys != [] then keys[1..] else Without(keys, key)) + [key]
    {
      ghost var target := After(cache, Op.GetOrSet(key, computed), capacity);
      Written(cache, Op.GetOrSet(key, computed), capacity);
      forall k | k != key && Find(target, k).Some? ensures Find(target, k) == Find(cache, k) {
        ValuesKept(cache, Op.GetOrSet(key, computed), capacity, k);
      }
      StepExact(cache, Op.Get(key), capacity);
      var cached := Get(key);
      data := if cached.Some? && cached.value.Just? then cached.value else computed;
      if cached.None? || cached.value.Null? {
        if cached.Some? {
          ReinsertTwice(old(cache), key, cached.value, data);
        }
        Set(key, data);
      }
    }
  }

  // ----- The keys in order of last use -----

  ghost predicate Distinct(keys: seq<Key>) {
    forall i, j :: 0 <= i < j < |keys| ==> keys[i] != keys[j]
  }

  function Without(keys: seq<Key>, key: Key): seq<Key> {
    if keys == [] then [] else if keys[0] == key then keys[1..] else [keys[0]] + Without(keys[1..], key)
  }

  function Touch(keys: seq<Key>, key: Key): seq<Key> {
    Without(keys, key) + [key]
  }

  /** The key becomes the most recently used one; a new key displaces the least recently used one of a full cache. */
  function Admit(keys: seq<Key>, key: Key, capacity: int): seq<Key> {
    if |keys| >= capacity && key !in keys && keys != [] then Touch(keys[1..], key) else Touch(keys, key)
  }

  function Step<T>(keys: seq<Key>, op: Op<T>, capacity: int): seq<Key> {
    match op
    case Get(key) => if key in keys then Touch(keys, key) else keys
    case Set(key, _) => Admit(keys, key, capacity)
    case GetOrSet(key, _) => Admit(keys, key, capacity)
    case Invalidate(key) => Without(keys, key)
  }

  lemma DistinctCons(k: Key, keys: seq<Key>)
    requires Distinct(keys) && k !in keys
    ensures Distinct([k] + keys)
  {
  }

  lemma {:induction false} WithoutExact(keys: seq<Key>, key: Key)
    requires Distinct(keys)
    ensures Distinct(Without(keys, key))
    ensures forall k :: k in Without(keys, key) <==> k in keys && k != key
    ensures |Without(keys, key)| == |keys| - if key in keys then 1 else 0
    ensures key !in keys ==> Without(keys, key) == keys
  {
    if keys != [] {
      assert forall k :: k in keys <==> k == keys[0] || k in keys[1..];
      WithoutExact(keys[1..], key);
      if keys[0] != key {
        DistinctCons(keys[0], Without(keys[1..], key));
      }
    }
  }

  lemma TouchExact(keys: seq<Key>, key: Key)
    requires Distinct(keys)
    ensures Distinct(Touch(keys, key))
    ensures forall k :: k in Touch(keys, key) <==> k in keys || k == key
    ensures |Touch(keys, key)| == |keys| + if key in keys then 0 else 1
  {
    WithoutExact(keys, key);
  }

  lemma {:induction false} DeleteKeys<T>(m: seq<Entry<T>>, key: Key)
    ensures KeysOf(Delete(m, key)) == Without(KeysOf(m), key)
  {
    if m != [] {
      assert KeysOf(m) == [m[0].key] + KeysOf(m[1..]);
      DeleteKeys(m[1..], key);
    }
  }

  lemma {:induction false} FindKeys<T>(m: seq<Entry<T>>, key: Key)
    ensures Find(m, key).Some? <==> key in KeysOf(m)
  {
    if m != [] {
      assert KeysOf(m) == [m[0].key] + KeysOf(m[1..]);
      FindKeys(m[1..], key);
    }
  }

  lemma KeysTail<T>(m: seq<Entry<T>>, key: Key)
    requires m != [] && key !in KeysOf(m)
    ensures m[0].key != key && key !in KeysOf(m[1..])
  {
    assert KeysOf(m)[0] == m[0].key;
    assert KeysOf(m[1..]) == KeysOf(m)[1..];
  }

  lemma AppendTail<T>(m: seq<Entry<T>>, e: Entry<T>)
    requires m != []
    ensures m + [e] == [m[0]] + (m[1..] + [e]) && (m + [e])[1..] == m[1..] + [e] && [m[0]] + m[1..] == m
  {
  }

  lemma {:induction false} PutAppends<T>(m: seq<Entry<T>>, key: Key, val: Value<T>)
    requires key !in KeysOf(m)
    ensures Put(m, key, val) == m + [Entry(key, val)]
  {
    if m != [] {
      KeysTail(m, key);
      AppendTail(m, Entry(key, val));
      PutAppends(m[1..], key, val);
    }
  }

  lemma ReinsertedKeys<T>(m: seq<Entry<T>>, key: Key, val: Value<T>)
    ensures KeysOf(Reinserted(m, key, val)) == Touch(KeysOf(m), key)
  {
    DeleteKeys(m, key);
  }

  lemma {:induction false} DeleteLast<T>(m: seq<Entry<T>>, key: Key, val: Value<T>)
    requires key !in KeysOf(m)
    ensures Delete(m + [Entry(key, val)], key) == m
  {
    var e := Entry(key, val);
    if m == [] {
      assert m + [e] == [e] && [e][1..] == [];
    } else {
      KeysTail(m, key);
      AppendTail(m, e);
      DeleteLast(m[1..], key, val);
    }
  }

  lemma ReinsertTwice<T>(m: seq<Entry<T>>, key: Key, val: Value<T>, val': Value<T>)
    requires Distinct(KeysOf(m))
    ensures Reinserted(Reinserted(m, key, val), key, val') == Reinserted(m, key, val')
    ensures Find(Reinserted(m, key, val), key).Some?
  {
    DeleteKeys(m, key);
    WithoutExact(KeysOf(m), key);
    DeleteLast(Delete(m, key), key, val);
    ReinsertedKeys(m, key, val);
    FindKeys(Reinserted(m, key, val), key);
  }

  /** On the keys an operation does what the order of last use asks for. */
  lemma StepKeys<T>(m: seq<Entry<T>>, op: Op<T>, capacity: int)
    ensures KeysOf(After(m, op, capacity)) == Step(KeysOf(m), op, capacity)
  {
    FindKeys(m, op.key);
    match op
    case Get(key) =>
      if Find(m, key).Some? {
        ReinsertedKeys(m, key, Find(m, key).value);
      }
    case Set(key, val) => SetKeys(m, key, val, capacity);
    case GetOrSet(key, computed) => SetKeys(m, key, Answer(m, key, computed), capacity);
    case Invalidate(key) => DeleteKeys(m, key);
  }

  lemma StepDistinct<T>(keys: seq<Key>, op: Op<T>, capacity: int)
    requires Distinct(keys)
    ensures Distinct(Step(keys, op, capacity))
  {
    WithoutExact(keys, op.key);
    TouchExact(keys, op.key);
    if keys != [] {
      TouchExact(keys[1..], op.key);
    }
  }

  lemma StepExact<T>(m: seq<Entry<T>>, op: Op<T>, capacity: int)
    requires Distinct(KeysOf(m))
    ensures KeysOf(After(m, op, capacity)) == Step(KeysOf(m), op, capacity)
    ensures Distinct(KeysOf(After(m, op, capacity)))
  {
    StepKeys(m, op, capacity);
    StepDistinct(KeysOf(m), op, capacity);
  }

  lemma SetKeys<T>(m: seq<Entry<T>>, key: Key, val: Value<T>, capacity: int)
    ensures KeysOf(AfterSet(m, key, val, capacity)) == Admit(KeysOf(m), key, capacity)
  {
    FindKeys(m, key);
    ReinsertedKeys(m, key, val);
    if m != [] {
      assert KeysOf(m[1..]) == KeysOf(m)[1..];
      ReinsertedKeys(m[1..], key, val);
    }
  }

  // ----- Values -----

  lemma {:induction false} FindDelete<T>(m: seq<Entry<T>>, key: Key, k: Key)
    requires Distinct(KeysOf(m))
    ensures Find(Delete(m, key), k) == if k == key then None else Find(m, k)
  {
    if m != [] {
      assert KeysOf(m) == [m[0].key] + KeysOf(m[1..]);
      if m[0].key == key {
        FindKeys(m[1..], key);
      } else {
        FindDelete(m[1..], key, k);
      }
    }
  }

  lemma {:induction false} DeleteCounts<T>(m: seq<Entry<T>>, key: Key)
    ensures |Delete(m, key)| == |m| - if Find(m, key).Some? then 1 else 0
  {
    if m != [] && m[0].key != key {
      DeleteCounts(m[1..], key);
    }
  }

  lemma {:induction false} FindAppend<T>(m: seq<Entry<T>>, e: Entry<T>, k: Key)
    ensures Find(m + [e], k) == if Find(m, k).Some? then Find(m, k) else if e.key == k then Some(e.val) else None
  {
    if m == [] {
      assert m + [e] == [e];
    } else {
      assert (m + [e])[1..] == m[1..] + [e];
      FindAppend(m[1..], e, k);
    }
  }

  lemma FindReinserted<T>(m: seq<Entry<T>>, key: Key, val: Value<T>, k: Key)
    requires Distinct(KeysOf(m))
    ensures Find(Reinserted(m, key, val), k) == if k == key then Some(val) else Find(m, k)
  {
    FindDelete(m, key, k);
    FindAppend(Delete(m, key), Entry(key, val), k);
  }

  /** What is written is found; what is not written keeps its value for as long as it stays in the cache. */
  lemma ValuesKept<T>(m: seq<Entry<T>>, op: Op<T>, capacity: int, k: Key)
    requires Distinct(KeysOf(m))
    ensures k != op.key && Find(After(m, op, capacity), k).Some? ==> Find(After(m, op, capacity), k) == Find(m, k)
    ensures Find(After(m, op, capacity), op.key) == match op
                                                    case Get(key) => Find(m, key)
                                                    case Set(_, val) => Some(val)
                                                    case GetOrSet(key, computed) => Some(Answer(m, key, computed))
                                                    case Invalidate(_) => None
  {
    FindDelete(m, op.key, k);
    FindDelete(m, op.key, op.key);
    match op
    case Get(key) =>
      if Find(m, key).Some? {
        FindReinserted(m, key, Find(m, key).value, k);
        FindReinserted(m, key, Find(m, key).value, key);
      }
    case Set(key, val) => SetValues(m, key, val, capacity, k);
    case GetOrSet(key, computed) => SetValues(m, key, Answer(m, key, computed), capacity, k);
    case Invalidate(key) =>
  }

  lemma GetKeepsAll<T>(m: seq<Entry<T>>, key: Key, capacity: int, k: Key)
    requires Distinct(KeysOf(m))
    ensures Find(After(m, Op.Get(key), capacity), k) == Find(m, k)
  {
    if Find(m, key).Some? {
      FindReinserted(m, key, Find(m, key).value, k);
    }
  }

  /** A write leaves its key as the most recent one. */
  lemma Written<T>(m: seq<Entry<T>>, op: Op<T>, capacity: int)
    requires Distinct(KeysOf(m)) && (op.Set? || op.GetOrSet?)
    ensures var keys, r := KeysOf(m), After(m, op, capacity);
            && Distinct(KeysOf(r))
            && KeysOf(r) == (if |keys| >= capacity && op.key !in keys && keys != [] then keys[1..]
                             else Without(keys, op.key)) + [op.key]
            && Find(r, op.key) == Some(if op.Set? then op.val else Answer(m, op.key, op.computed))
  {
    StepExact(m, op, capacity);
    ValuesKept(m, op, capacity, op.key);
    var keys := KeysOf(m);
    if |keys| >= capacity && op.key !in keys && keys != [] {
      WithoutAbsent(keys[1..], op.key);
    }
  }

  lemma SetValues<T>(m: seq<Entry<T>>, key: Key, val: Value<T>, capacity: int, k: Key)
    requires Distinct(KeysOf(m))
    ensures var r := AfterSet(m, key, val, capacity);
            Find(r, key) == Some(val) && (k != key && Find(r, k).Some? ==> Find(r, k) == Find(m, k))
  {
    FindReinserted(m, key, val, k);
    FindReinserted(m, key, val, key);
    if m != [] {
      assert KeysOf(m[1..]) == KeysOf(m)[1..];
      FindReinserted(m[1..], key, val, k);
      FindReinserted(m[1..], key, val, key);
      FindKeys(m[1..], m[0].key);
    }
  }

  // ----- Subsequences -----

  ghost predicate Sub(a: seq<Key>, b: seq<Key>) {
    a == [] || (b != [] && if a[0] == b[0] then Sub(a[1..], b[1..]) else Sub(a, b[1..]))
  }

  lemma {:induction false} SubMembers(a: seq<Key>, b: seq<Key>)
    requires Sub(a, b)
    ensures forall k :: k in a ==> k in b
    ensures |a| <= |b|
    decreases |b|
  {
    if a != [] {
      assert forall k :: k in a <==> k == a[0] || k in a[1..];
      SubMembers(if a[0] == b[0] then a[1..] else a, b[1..]);
    }
  }

  lemma {:induction false} SubTail(a: seq<Key>, b: seq<Key>)
    requires Sub(a, b) && a != []
    ensures Sub(a[1..], b) && Sub(a[1..], b[1..])
    decreases |b|, 1
  {
    if a[0] != b[0] {
      SubTail(a, b[1..]);
    }
    SubLonger(a[1..], b);
  }

  lemma {:induction false} SubLonger(a: seq<Key>, b: seq<Key>)
    requires b != [] && Sub(a, b[1..])
    ensures Sub(a, b)
    decreases |b|, 0
  {
    if a != [] && a[0] == b[0] {
      SubTail(a, b[1..]);
    }
  }

  lemma {:induction false} SubWithout(a: seq<Key>, b: seq<Key>, key: Key)
    requires Sub(a, b) && Distinct(b)
    ensures Sub(Without(a, key), Without(b, key))
    decreases |b|
  {
    if a != [] {
      assert forall k :: k in b <==> k == b[0] || k in b[1..];
      if a[0] == b[0] {
        if a[0] != key {
          SubWithout(a[1..], b[1..], key);
        }
      } else {
        SubWithout(a, b[1..], key);
        if b[0] == key {
          WithoutExact(b[1..], key);
        } else {
          SubLonger(Without(a, key), Without(b, key));
        }
      }
    }
  }

  lemma {:induction false} SubAppend(a: seq<Key>, b: seq<Key>, key: Key)
    requires Sub(a, b)
    ensures Sub(a + [key], b + [key]) && Sub(a, b + [key])
    decreases |b|
  {
    if b == [] {
      assert a + [key] == [key] && b + [key] == [key];
    } else {
      assert (b + [key])[1..] == b[1..] + [key];
      if a == [] {
        SubAppend(a, b[1..], key);
        SubLonger(a + [key], b + [key]);
      } else {
        SubAppend(if a[0] == b[0] then a[1..] else a, b[1..], key);
        assert (a + [key])[1..] == a[1..] + [key];
      }
    }
  }

  // ----- A smaller cache never holds what a larger one does not -----

  /** A capacity below one still leaves room for one entry. */
  function Room(capacity: int): nat {
    if capacity < 1 then 1 else capacity
  }

  ghost predicate Included(small: seq<Key>, c1: int, big: seq<Key>, c2: int) {
    && Distinct(small) && Distinct(big)
    && Sub(small, big)
    && |small| <= Room(c1) && |big| <= Room(c2)
    && Room(c1) - |small| <= Room(c2) - |big|
  }

  function Evicted(keys: seq<Key>, key: Key, capacity: int): seq<Key> {
    if |keys| >= capacity && key !in keys && keys != [] then keys[1..] else keys
  }

  lemma EvictKeepsSub(small: seq<Key>, c1: int, big: seq<Key>, c2: int, key: Key)
    requires c1 <= c2 && Included(small, c1, big, c2)
    ensures var s, b := Evicted(small, key, c1), Evicted(big, key, c2);
            && Distinct(s) && Distinct(b) && Sub(s, b)
            && (key in s <==> key in small) && (key in b <==> key in big)
            && (key !in small ==> |s| < Room(c1)) && (key !in big ==> |b| < Room(c2))
            && Room(c1) - |s| - (if key in small then 0 else 1) <= Room(c2) - |b| - (if key in big then 0 else 1)
  {
    SubMembers(small, big);
    if small != [] {
      assert forall k :: k in small <==> k == small[0] || k in small[1..];
      SubTail(small, big);
    }
    if big != [] {
      assert forall k :: k in big <==> k == big[0] || k in big[1..];
    }
  }

  lemma AdmitKeepsIncluded(small: seq<Key>, c1: int, big: seq<Key>, c2: int, key: Key)
    requires c1 <= c2 && Included(small, c1, big, c2)
    ensures Included(Admit(small, key, c1), c1, Admit(big, key, c2), c2)
  {
    EvictKeepsSub(small, c1, big, c2, key);
    var s, b := Evicted(small, key, c1), Evicted(big, key, c2);
    SubMembers(small, big);
    TouchExact(s, key);
    TouchExact(b, key);
    SubWithout(s, b, key);
    SubAppend(Without(s, key), Without(b, key), key);
  }

  lemma StepKeepsIncluded<T>(small: seq<Key>, c1: int, big: seq<Key>, c2: int, op: Op<T>)
    requires c1 <= c2 && Included(small, c1, big, c2)
    ensures Included(Step(small, op, c1), c1, Step(big, op, c2), c2)
  {
    if op.Set? || op.GetOrSet? {
      AdmitKeepsIncluded(small, c1, big, c2, op.key);
    } else {
      SubMembers(small, big);
      WithoutExact(small, op.key);
      WithoutExact(big, op.key);
      SubWithout(small, big, op.key);
      SubAppend(Without(small, op.key), Without(big, op.key), op.key);
      TouchExact(small, op.key);
      TouchExact(big, op.key);
    }
  }

  function Run<T>(m: seq<Entry<T>>, ops: seq<Op<T>>, capacity: int): seq<Entry<T>>
    decreases |ops|
  {
    if ops == [] then m else Run(After(m, ops[0], capacity), ops[1..], capacity)
  }

  lemma {:induction false} RunKeepsIncluded<T>(small: seq<Entry<T>>, c1: int, big: seq<Entry<T>>, c2: int, ops: seq<Op<T>>)
    requires c1 <= c2 && Included(KeysOf(small), c1, KeysOf(big), c2)
    ensures Included(KeysOf(Run(small, ops, c1)), c1, KeysOf(Run(big, ops, c2)), c2)
    decreases |ops|
  {
    if ops != [] {
      StepExact(small, ops[0], c1);
      StepExact(big, ops[0], c2);
      StepKeepsIncluded(KeysOf(small), c1, KeysOf(big), c2, ops[0]);
      RunKeepsIncluded(After(small, ops[0], c1), c1, After(big, ops[0], c2), c2, ops[1..]);
    }
  }

  /**
   Inclusion: on the same operations, in whatever order and whatever the values, a cache with a smaller capacity
   holds a subsequence, in order of last use, of what a cache with a larger one holds. No cache outgrows its
   capacity, except that a capacity below one still holds one entry.
   */
  lemma SmallerIsIncluded<T>(ops: seq<Op<T>>, c1: int, c2: int)
    requires c1 <= c2
    ensures Sub(KeysOf(Run([], ops, c1)), KeysOf(Run([], ops, c2)))
    ensures |Run([], ops, c1)| <= Room(c1)
  {
    RunKeepsIncluded<T>([], c1, [], c2, ops);
  }

  // ----- Without invalidations and bare gets: the last keys in order of last use -----

  ghost predicate OnlyWrites<T>(ops: seq<Op<T>>) {
    forall i :: 0 <= i < |ops| ==> ops[i].Set? || ops[i].GetOrSet?
  }

  /** The distinct keys of the operations, in order of last use. */
  function Recency<T>(ops: seq<Op<T>>): seq<Key>
    decreases |ops|
  {
    if ops == [] then [] else Touch(Recency(ops[..|ops| - 1]), ops[|ops| - 1].key)
  }

  function LastUse<T>(ops: seq<Op<T>>, key: Key): (i: int)
    ensures -1 <= i < |ops|
    ensures i >= 0 ==> ops[i].key == key
    ensures forall j :: i < j < |ops| ==> ops[j].key != key
    decreases |ops|
  {
    if ops == [] then -1
    else if ops[|ops| - 1].key == key then |ops| - 1
    else LastUse(ops[..|ops| - 1], key)
  }

  lemma {:induction false} WithoutKeepsOrder(keys: seq<Key>, key: Key, i: nat, j: nat) returns (i': nat, j': nat)
    requires i < j < |Without(keys, key)|
    ensures i' < j' < |keys| && keys[i'] == Without(keys, key)[i] && keys[j'] == Without(keys, key)[j]
    ensures Distinct(keys) ==> keys[i'] != key && keys[j'] != key
  {
    if keys[0] == key {
      i', j' := i + 1, j + 1;
    } else if i == 0 {
      i' := 0;
      j' := WithoutAt(keys, key, j);
    } else {
      i', j' := WithoutKeepsOrder(keys[1..], key, i - 1, j - 1);
      i', j' := i' + 1, j' + 1;
    }
  }

  lemma {:induction false} WithoutAt(keys: seq<Key>, key: Key, j: nat) returns (j': nat)
    requires j < |Without(keys, key)|
    ensures j <= j' < |keys| && keys[j'] == Without(keys, key)[j]
    ensures Distinct(keys) ==> keys[j'] != key
  {
    if keys[0] == key {
      j' := j + 1;
    } else if j == 0 {
      j' := 0;
    } else {
      j' := WithoutAt(keys[1..], key, j - 1);
      j' := j' + 1;
    }
  }

  /** Recency lists each used key once, and a key that was last used later comes later. */
  lemma {:induction false} RecencyExact<T>(ops: seq<Op<T>>)
    ensures Distinct(Recency(ops))
    ensures forall k :: k in Recency(ops) <==> LastUse(ops, k) >= 0
    ensures InOrder(ops, Recency(ops))
    decreases |ops|
  {
    if ops != [] {
      var front, key := ops[..|ops| - 1], ops[|ops| - 1].key;
      RecencyExact(front);
      TouchExact(Recency(front), key);
      WithoutExact(Recency(front), key);
      var r := Recency(ops);
      forall i, j | 0 <= i < j < |r| ensures LastUse(ops, r[i]) < LastUse(ops, r[j]) {
        LaterUse(ops, i, j);
      }
    }
  }

  lemma LaterUse<T>(ops: seq<Op<T>>, i: nat, j: nat)
    requires ops != [] && i < j < |Recency(ops)|
    requires Distinct(Recency(ops[..|ops| - 1])) && InOrder(ops[..|ops| - 1], Recency(ops[..|ops| - 1]))
    ensures LastUse(ops, Recency(ops)[i]) < LastUse(ops, Recency(ops)[j])
  {
    var front, key := ops[..|ops| - 1], ops[|ops| - 1].key;
    var rest := Without(Recency(front), key);
    WithoutExact(Recency(front), key);
    assert rest[i] in rest;
    LastUseStep(ops, rest[i]);
    if j < |rest| {
      assert rest[j] in rest;
      LastUseStep(ops, rest[j]);
      var i', j' := WithoutKeepsOrder(Recency(front), key, i, j);
    } else {
      LastUseStep(ops, key);
    }
  }

  ghost predicate InOrder<T>(ops: seq<Op<T>>, keys: seq<Key>) {
    forall i, j :: 0 <= i < j < |keys| ==> LastUse(ops, keys[i]) < LastUse(ops, keys[j])
  }

  lemma LastUseStep<T>(ops: seq<Op<T>>, key: Key)
    requires ops != []
    ensures LastUse(ops, key)
            == if ops[|ops| - 1].key == key then |ops| - 1 else LastUse(ops[..|ops| - 1], key)
  {
  }

  function Suffix(keys: seq<Key>, n: nat): seq<Key> {
    if n < |keys| then keys[|keys| - n..] else keys
  }

  lemma {:induction false} WithoutBehind(a: seq<Key>, b: seq<Key>, key: Key)
    requires key !in a
    ensures Without(a + b, key) == a + Without(b, key)
  {
    if a == [] {
      assert a + b == b;
    } else {
      var tail := a[1..];
      assert (a + b)[1..] == tail + b;
      WithoutBehind(tail, b, key);
      assert [a[0]] + (tail + Without(b, key)) == a + Without(b, key);
    }
  }

  lemma {:induction false} WithoutBefore(a: seq<Key>, b: seq<Key>, key: Key)
    requires key !in b
    ensures Without(a + b, key) == Without(a, key) + b
  {
    if a == [] {
      assert a + b == b;
      WithoutAbsent(b, key);
    } else {
      assert (a + b)[1..] == a[1..] + b;
      WithoutBefore(a[1..], b, key);
    }
  }

  lemma {:induction false} WithoutAbsent(keys: seq<Key>, key: Key)
    requires key !in keys
    ensures Without(keys, key) == keys
  {
    if keys != [] {
      WithoutAbsent(keys[1..], key);
    }
  }

  lemma TouchRecent(older: seq<Key>, last: seq<Key>, key: Key)
    requires Distinct(last) && key in last && key !in older
    ensures Touch(older + last, key) == older + Touch(last, key) && |Touch(last, key)| == |last|
  {
    WithoutBehind(older, last, key);
    WithoutExact(last, key);
  }

  lemma TouchOlder(older: seq<Key>, last: seq<Key>, key: Key)
    requires key !in last
    ensures Touch(older + last, key) == Without(older, key) + (last + [key])
  {
    WithoutBefore(older, last, key);
  }

  lemma SuffixOf(a: seq<Key>, b: seq<Key>, n: nat)
    requires |b| >= n || a == []
    ensures Suffix(a + b, n) == Suffix(b, n)
  {
    assert a == [] ==> a + b == b;
  }

  lemma AdmitRecent(older: seq<Key>, last: seq<Key>, key: Key, capacity: int)
    requires Distinct(last) && key in last && key !in older && |last| <= Room(capacity)
    requires |last| == Room(capacity) || older == []
    ensures Admit(last, key, capacity) == Suffix(Touch(older + last, key), Room(capacity))
  {
    TouchRecent(older, last, key);
    SuffixOf(older, Touch(last, key), Room(capacity));
  }

  lemma AdmitAbsent(older: seq<Key>, last: seq<Key>, key: Key, capacity: int)
    requires key !in last && |last| <= Room(capacity)
    requires |last| == Room(capacity) || older == []
    ensures Admit(last, key, capacity) == Suffix(Touch(older + last, key), Room(capacity))
  {
    TouchOlder(older, last, key);
    SuffixOf(Without(older, key), last + [key], Room(capacity));
    AdmitNew(last, key, capacity);
  }

  lemma SplitSuffix(keys: seq<Key>, n: nat) returns (older: seq<Key>)
    requires Distinct(keys)
    ensures keys == older + Suffix(keys, n) && Distinct(Suffix(keys, n))
    ensures |Suffix(keys, n)| <= n && (|Suffix(keys, n)| == n || older == [])
    ensures forall k :: k in Suffix(keys, n) ==> k !in older
  {
    older := keys[..|keys| - |Suffix(keys, n)|];
  }

  /** Admitting a key to the most recent ones gives the most recent ones after a use of the key. */
  lemma AdmitSuffix(keys: seq<Key>, key: Key, capacity: int)
    requires Distinct(keys)
    ensures Admit(Suffix(keys, Room(capacity)), key, capacity) == Suffix(Touch(keys, key), Room(capacity))
  {
    var last := Suffix(keys, Room(capacity));
    var older := SplitSuffix(keys, Room(capacity));
    if key in last {
      AdmitRecent(older, last, key, capacity);
    } else {
      AdmitAbsent(older, last, key, capacity);
    }
  }

  lemma AdmitNew(last: seq<Key>, key: Key, capacity: int)
    requires key !in last && |last| <= Room(capacity)
    ensures Admit(last, key, capacity) == Suffix(last + [key], Room(capacity))
  {
    if |last| < Room(capacity) {
      WithoutAbsent(last, key);
      assert Admit(last, key, capacity) == last + [key];
    } else {
      WithoutAbsent(last[1..], key);
      assert Admit(last, key, capacity) == last[1..] + [key];
    }
  }

  lemma {:induction false} RunAppend<T>(m: seq<Entry<T>>, ops: seq<Op<T>>, op: Op<T>, capacity: int)
    ensures Run(m, ops + [op], capacity) == After(Run(m, ops, capacity), op, capacity)
    decreases |ops|
  {
    if ops == [] {
      assert ([] + [op])[1..] == [];
    } else {
      assert (ops + [op])[1..] == ops[1..] + [op];
      RunAppend(After(m, ops[0], capacity), ops[1..], op, capacity);
    }
  }

  /** After any number of set and getOrSet calls the cache holds the last distinct keys, in order of last use. */
  lemma {:induction false} HoldsLastKeys<T>(ops: seq<Op<T>>, capacity: int)
    requires OnlyWrites(ops)
    ensures KeysOf(Run([], ops, capacity)) == Suffix(Recency(ops), Room(capacity))
    decreases |ops|
  {
    if ops != [] {
      var front, op := ops[..|ops| - 1], ops[|ops| - 1];
      assert ops == front + [op];
      HoldsLastKeys(front, capacity);
      RecencyExact(front);
      RunAppend([], front, op, capacity);
      StepExact(Run([], front, capacity), op, capacity);
      AdmitSuffix(Recency(front), op.key, capacity);
    }
  }
}
