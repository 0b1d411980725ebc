/** The three block stores as objects: Redis, the wrapped database, and the cached store over both. */
module BlockStores {
  import opened Wrappers
  import opened BlockTables
  import opened SortedBlocks
  import C = CachedStore
  import L = LatestBlocks

  /** The documents of a Redis answer, decoded, in the order asked for. */
  method ParseBlocks(raw: seq<Block>, asc: bool) returns (blocks: seq<Block>)
    ensures blocks == if asc then raw else Reverse(raw)
  {
    var a := new Block[|raw|](_ => Block(0, ""));
    var i := 0;
    while i < |raw|
      invariant 0 <= i <= |raw|
      invariant asc ==> a[..i] == raw[..i]
      invariant !asc ==> forall k :: 0 <= k < i ==> a[|raw| - 1 - k] == raw[k]
    {
      if asc {
        a[i] := raw[i];
      } else {
        a[|raw| - 1 - i] := raw[i];
      }
      i := i + 1;
    }
    blocks := a[..];
    if !asc {
      forall k | 0 <= k < |raw| ensures blocks[k] == Reverse(raw)[k] {
        assert a[|raw| - 1 - (|raw| - 1 - k)] == raw[|raw| - 1 - k];
      }
    }
  }

  class RedisBlockStore {
    var zset: seq<Block>

    ghost predicate Valid()
      reads this
    {
      Ascending(zset)
    }

    ghost function Contents(): Table
      reads this
    {
      TableOf(zset)
    }

    constructor ()
      ensures Valid() && Contents() == map[]
    {
      zset := [];
    }

    /** ZADD NX. Members are documents, so that only one document for each height may ever be offered. */
    method PutBlocks(blocks: seq<Block>)
      requires Valid() && Consistent(Contents(), blocks)
      modifies this
      ensures Valid() && Contents() == InsertIfAbsent(old(Contents()), blocks)
    {
      var i := 0;
      assert blocks[0..] == blocks;
      while i < |blocks|
        invariant 0 <= i <= |blocks| && Valid()
        invariant InsertIfAbsent(Contents(), blocks[i..]) == InsertIfAbsent(old(Contents()), blocks)
      {
        assert blocks[i..][1..] == blocks[i + 1..];
        InsertSortedMembers(zset, blocks[i]);
        InsertSortedTable(zset, blocks[i]);
        zset := InsertSorted(zset, blocks[i]);
        i := i + 1;
      }
    }

    method GetBlocks(startHeight: nat, endHeight: nat) returns (blocks: seq<Block>)
      requires Valid()
      ensures blocks == Range(Contents(), startHeight, endHeight)
    {
      if startHeight > endHeight {
        return [];
      }
      BetweenIsRange(zset, startHeight, endHeight);
      blocks := ParseBlocks(Between(zset, startHeight, endHeight), true);
    }

    method GetLatestBlocks(limit: int) returns (blocks: seq<Block>)
      requires Valid()
      ensures blocks == if limit <= 0 then [] else Latest(Contents(), limit)
    {
      if limit <= 0 {
        return [];
      }
      LastIsLatest(zset, limit);
      blocks := ParseBlocks(Last(zset, limit), false);
    }

    method GetLatestBlock() returns (block: Option<Block>)
      requires Valid()
      ensures block == if Latest(Contents(), 1) == [] then None else Some(Latest(Contents(), 1)[0])
    {
      var blocks := GetLatestBlocks(1);
      if |blocks| == 0 {
        return None;
      }
      return Some(blocks[0]);
    }

    method GetEarliestBlocks(limit: int) returns (blocks: seq<Block>)
      requires Valid()
      ensures blocks == if limit <= 0 then [] else Earliest(Contents(), limit)
    {
      if limit <= 0 {
        return [];
      }
      FirstIsEarliest(zset, limit);
      blocks := ParseBlocks(First(zset, limit), true);
    }

    method DeleteBlocks(blocks: seq<Block>)
      requires Valid() && Consistent(Contents(), blocks)
      modifies this
      ensures Valid() && Contents() == Remove(old(Contents()), blocks)
    {
      if |blocks| == 0 {
        assert Contents() == Remove(Contents(), blocks);
        return;
      }
      ExceptExact(zset, blocks);
      ExceptIsRemove(zset, blocks);
      zset := Except(zset, blocks);
    }
  }

  /** The database behind the cache, with its rows in the order of their primary key. */
  class WrappedStore {
    var rows: seq<Block>

    ghost predicate Valid()
      reads this
    {
      Ascending(rows)
    }

    ghost function Contents(): Table
      reads this
    {
      TableOf(rows)
    }

    constructor ()
      ensures Valid() && Contents() == map[]
    {
      rows := [];
    }

    /** INSERT ... ON CONFLICT DO NOTHING, in one transaction. */
    method PutBlocks(blocks: seq<Block>)
      requires Valid()
      modifies this
      ensures Valid() && Contents() == InsertIfAbsent(old(Contents()), blocks)
    {
      var i := 0;
      assert blocks[0..] == blocks;
      while i < |blocks|
        invariant 0 <= i <= |blocks| && Valid()
        invariant InsertIfAbsent(Contents(), blocks[i..]) == InsertIfAbsent(old(Contents()), blocks)
      {
        assert blocks[i..][1..] == blocks[i + 1..];
        InsertSortedMembers(rows, blocks[i]);
        InsertSortedTable(rows, blocks[i]);
        rows := InsertSorted(rows, blocks[i]);
        i := i + 1;
      }
    }

    method GetBlocks(startHeight: nat, endHeight: nat) returns (blocks: seq<Block>)
      requires Valid()
      ensures blocks == Range(Contents(), startHeight, endHeight)
    {
      if startHeight > endHeight {
        return [];
      }
      BetweenIsRange(rows, startHeight, endHeight);
      blocks := Between(rows, startHeight, endHeight);
    }

    method GetLatestBlocks(limit: int) returns (blocks: seq<Block>)
      requires Valid()
      ensures blocks == if limit <= 0 then [] else Latest(Contents(), limit)
    {
      if limit <= 0 {
        return [];
      }
      LastIsLatest(rows, limit);
      blocks := Reverse(Last(rows, limit));
    }

    method GetLatestBlock() returns (block: Option<Block>)
      requires Valid()
      ensures block == if Latest(Contents(), 1) == [] then None else Some(Latest(Contents(), 1)[0])
    {
      var blocks := GetLatestBlocks(1);
      if |blocks| == 0 {
        return None;
      }
      return Some(blocks[0]);
    }
  }

  class RedisOptimizedBlockStore {
    const wrappedStore: WrappedStore
    const redisStore: RedisBlockStore

    constructor (wrappedStore: WrappedStore, redisStore: RedisBlockStore)
      ensures this.wrappedStore == wrappedStore && this.redisStore == redisStore
    {
      this.wrappedStore := wrappedStore;
      this.redisStore := redisStore;
    }

    ghost predicate Valid()
      reads wrappedStore, redisStore
    {
      wrappedStore.Valid() && redisStore.Valid()
    }

    /** The state between two flush cycles. */
    ghost function State(): C.Store
      reads wrappedStore, redisStore
    {
      C.Store(redisStore.Contents(), wrappedStore.Contents(), C.Idle)
    }

    /** One whole cycle; RoundMoves says what it moves. */
    method FlushCache(threshold: nat)
      requires Valid() && C.Inv(State()) && threshold > 0
      modifies wrappedStore, redisStore
      ensures Valid() && State() == C.FinishCycle(C.Do(old(State()), C.Read(threshold)))
    {
      CycleEffect(State(), threshold);
      var blocks := redisStore.GetEarliestBlocks(threshold);
      if |blocks| >= threshold {
        wrappedStore.PutBlocks(blocks);
        redisStore.DeleteBlocks(blocks);
      }
    }

    /**
     The flusher for a number of timer rounds after its first, immediate cycle. Each cycle takes as many blocks as the
     threshold says, 100 when none is set, for as long as there are so many. What leaves the cache is its low end, and
     the database has it then.
     */
    method StartFlushing(threshold: int, rounds: nat)
      requires Valid() && C.Inv(State())
      modifies wrappedStore, redisStore
      ensures Valid() && C.Inv(State()) && Moved(old(State()), State())
      ensures C.Union(State()) == C.Union(old(State()))
      ensures |State().cache| == LeftInCache(|old(State()).cache|, if threshold <= 0 then 100 else threshold, rounds + 1)
    {
      var opts: nat := if threshold <= 0 then 100 else threshold;
      ghost var start := State();
      var done := 0;
      FlushCache(opts);
      while done < rounds
        invariant done <= rounds && Valid() && State() == Cycles(start, opts, done + 1)
      {
        CyclesKeep(start, opts, done + 1);
        FlushCache(opts);
        done := done + 1;
      }
      CyclesMove(start, opts, rounds + 1);
    }

    method PutBlocks(blocks: seq<Block>)
      requires Valid() && Consistent(C.Union(State()), blocks) && C.Inv(State())
      modifies redisStore
      ensures Valid() && State() == C.Do(old(State()), C.Put(blocks))
    {
      C.ConsistentWithCache(State(), blocks);
      redisStore.PutBlocks(blocks);
    }

    method GetBlocks(startHeight: nat, endHeight: nat) returns (blocks: seq<Block>)
      requires Valid()
      ensures blocks == C.GetBlocks(State(), startHeight, endHeight)
    {
      if startHeight > endHeight {
        return [];
      }
      var numBlocks := C.U64(endHeight - startHeight + 1);
      if numBlocks <= 0 {
        return [];
      }
      var dirtyBlocks := redisStore.GetBlocks(startHeight, endHeight);
      if |dirtyBlocks| == numBlocks {
        return dirtyBlocks;
      }
      if |dirtyBlocks| == 0 {
        blocks := wrappedStore.GetBlocks(startHeight, endHeight);
        return;
      }
      var end := C.U64(dirtyBlocks[0].height - 1);
      var older := wrappedStore.GetBlocks(startHeight, end);
      return older + dirtyBlocks;
    }

    method GetLatestBlocks(limit: int) returns (blocks: seq<Block>)
      requires Valid()
      ensures blocks == L.GetLatestBlocks(State(), limit)
    {
      if limit <= 0 {
        return [];
      }
      var dirtyBlocks := redisStore.GetLatestBlocks(limit);
      if |dirtyBlocks| == limit {
        return dirtyBlocks;
      }
      LatestLength(redisStore.Contents(), limit);
      if |dirtyBlocks| == 0 {
        blocks := wrappedStore.GetLatestBlocks(limit);
        return;
      }
      var end := C.U64(dirtyBlocks[|dirtyBlocks| - 1].height - 1);
      var start := C.U64(end - C.U64(limit - |dirtyBlocks|) + 1);
      // max(0, start) is start: both are uint64 values
      var older := wrappedStore.GetBlocks(start, end);
      return SortDescending(dirtyBlocks + older);
    }

    method GetLatestBlock() returns (block: Option<Block>)
      requires Valid()
      ensures block == if L.GetLatestBlock(State()) == [] then None else Some(L.GetLatestBlock(State())[0])
    {
      block := redisStore.GetLatestBlock();
      if block.Some? {
        return;
      }
      block := wrappedStore.GetLatestBlock();
    }
  }

  /** What a whole cycle does to the two tables. */
  lemma CycleEffect(s: C.Store, threshold: nat)
    requires s.flusher.Idle?
    ensures var blocks := Earliest(s.cache, threshold);
            && Consistent(s.cache, blocks)
            && C.FinishCycle(C.Do(s, C.Read(threshold)))
               == if |blocks| < threshold then s
                  else C.Store(Remove(s.cache, blocks), InsertIfAbsent(s.db, blocks), C.Idle)
  {
    EarliestShape(s.cache, threshold);
  }

  // ----- What the flusher moves -----

  /** The low end of the cache has moved to the database, and nothing else has changed. */
  ghost predicate Moved(s: C.Store, r: C.Store) {
    && r.cache.Keys <= s.cache.Keys && (forall h :: h in r.cache ==> r.cache[h] == s.cache[h])
    && (forall h, k :: h in s.cache && h !in r.cache && k in r.cache ==> h < k)
    && r.db.Keys == s.db.Keys + (s.cache.Keys - r.cache.Keys)
    && (forall h :: h in s.db ==> r.db[h] == s.db[h])
    && (forall h :: h in s.cache && h !in r.cache ==> r.db[h] == s.cache[h])
  }

  lemma MovedOn(s: C.Store, r: C.Store, q: C.Store)
    requires Moved(s, r) && Moved(r, q)
    ensures Moved(s, q)
  {
  }

  lemma MovedKeepsUnion(s: C.Store, r: C.Store)
    requires C.Inv(s) && Moved(s, r)
    ensures C.Union(r) == C.Union(s)
  {
  }

  /** So many whole cycles. */
  ghost function Cycles(s: C.Store, t: nat, cycles: nat): (r: C.Store)
    requires s.flusher.Idle?
    ensures r.flusher.Idle?
  {
    if cycles == 0 then s else C.FinishCycle(C.Do(Cycles(s, t, cycles - 1), C.Read(t)))
  }

  /** What is left of so many cached blocks when each cycle takes t of them, for as long as there are so many. */
  function LeftInCache(size: nat, t: nat, cycles: nat): int
    requires t > 0
  {
    size - t * (if cycles < size / t then cycles else size / t)
  }

  /** The same, cycle by cycle. */
  function CachedAfter(size: nat, t: nat, cycles: nat): nat {
    if cycles == 0 then size
    else var left := CachedAfter(size, t, cycles - 1); if left >= t then left - t else left
  }

  /** However many cycles there are, what has left the cache is its low end, the database has it, and nothing is lost. */
  lemma CyclesMove(s: C.Store, t: nat, cycles: nat)
    requires C.Inv(s) && s.flusher.Idle? && t > 0
    ensures var r := Cycles(s, t, cycles);
            && C.Inv(r) && Moved(s, r) && C.Union(r) == C.Union(s)
            && |r.cache| == LeftInCache(|s.cache|, t, cycles)
  {
    CyclesKeep(s, t, cycles);
    CyclesCount(s, t, cycles);
    MovedKeepsUnion(s, Cycles(s, t, cycles));
    CycleCount(|s.cache|, t, cycles);
  }

  lemma {:induction false} CyclesKeep(s: C.Store, t: nat, cycles: nat)
    requires C.Inv(s) && s.flusher.Idle? && t > 0
    ensures C.Inv(Cycles(s, t, cycles)) && Moved(s, Cycles(s, t, cycles))
  {
    if cycles > 0 {
      var before := Cycles(s, t, cycles - 1);
      CyclesKeep(s, t, cycles - 1);
      RoundMoves(before, t);
      MovedOn(s, before, Cycles(s, t, cycles));
    }
  }

  lemma {:induction false} CyclesCount(s: C.Store, t: nat, cycles: nat)
    requires C.Inv(s) && s.flusher.Idle? && t > 0
    ensures |Cycles(s, t, cycles).cache| == CachedAfter(|s.cache|, t, cycles)
  {
    if cycles > 0 {
      CyclesCount(s, t, cycles - 1);
      CyclesKeep(s, t, cycles - 1);
      RoundMoves(Cycles(s, t, cycles - 1), t);
    }
  }

  lemma {:induction false} CycleCount(size: nat, t: nat, cycles: nat)
    requires t > 0
    ensures CachedAfter(size, t, cycles) == LeftInCache(size, t, cycles)
  {
    if cycles == 0 {
      assert LeftInCache(size, t, 0) == size;
    } else {
      CycleCount(size, t, cycles - 1);
      LeftAfterOneMore(size, t, cycles - 1);
    }
  }

  lemma LeftAfterOneMore(size: nat, t: nat, n: nat)
    requires t > 0
    ensures var left := LeftInCache(size, t, n);
            LeftInCache(size, t, n + 1) == left - if left >= t then t else 0
  {
    OneCycle(size, t, n);
  }

  lemma OneCycle(size: nat, t: nat, n: nat)
    requires t > 0
    ensures n < size / t ==> size - t * n >= t && size - t * (n + 1) == size - t * n - t
    ensures n >= size / t ==> size - t * (size / t) < t
  {
    Divided(size, t);
    TimesNext(t, n);
    if n < size / t {
      TimesGrows(t, n + 1, size / t);
    }
  }

  lemma Divided(size: nat, t: nat)
    requires t > 0
    ensures t * (size / t) <= size < t * (size / t) + t
  {
  }

  lemma TimesNext(t: nat, n: nat)
    ensures t * (n + 1) == t * n + t
  {
  }

  lemma {:induction false} TimesGrows(t: nat, a: nat, b: nat)
    requires a <= b
    ensures t * a <= t * b
    decreases b - a
  {
    if a < b {
      TimesNext(t, b - 1);
      TimesGrows(t, a, b - 1);
    }
  }

  lemma {:induction false} HeightsCount(bs: seq<Block>)
    requires Ascending(bs)
    ensures |Heights(bs)| == |bs|
  {
    if bs != [] {
      AscendingTail(bs);
      HeightsCount(bs[1..]);
      HeightsCons(bs[0], bs[1..]);
      assert bs == [bs[0]] + bs[1..];
      assert bs[0].height !in Heights(bs[1..]);
    }
  }

  lemma RemoveCount(t: Table, bs: seq<Block>)
    requires Ascending(bs) && Within(bs, t)
    ensures |Remove(t, bs)| == |t| - |bs|
  {
    HeightsCount(bs);
    assert Heights(bs) <= t.Keys;
    assert Remove(t, bs).Keys == t.Keys - Heights(bs);
    assert |t.Keys - Heights(bs)| == |t.Keys| - |Heights(bs)|;
  }

  lemma CycleMoves(s: C.Store, blocks: seq<Block>)
    requires C.Inv(s) && Within(blocks, s.cache)
    requires forall h, b :: h in s.cache && h !in Heights(blocks) && b in blocks ==> h > b.height
    ensures Moved(s, C.Store(Remove(s.cache, blocks), InsertIfAbsent(s.db, blocks), C.Idle))
  {
    InsertIfAbsentExact(s.db, blocks);
  }

  /** One cycle moves the threshold's number of blocks, or nothing. */
  lemma RoundMoves(s: C.Store, threshold: nat)
    requires C.Inv(s) && s.flusher.Idle? && threshold > 0
    ensures var r := C.FinishCycle(C.Do(s, C.Read(threshold)));
            && C.Inv(r) && r.flusher.Idle? && Moved(s, r)
            && |r.cache| == |s.cache| - if |s.cache| >= threshold then threshold else 0
  {
    var blocks := Earliest(s.cache, threshold);
    FlushRoundExact(s, threshold);
    CycleEffect(s, threshold);
    C.EarliestFacts(s.cache, threshold);
    EarliestLength(s.cache, threshold);
    assert |s.cache.Keys| == |s.cache|;
    if |blocks| >= threshold {
      CycleMoves(s, blocks);
      RemoveCount(s.cache, blocks);
    }
  }

  /** One round of the flusher keeps the union as it is. */
  lemma FlushRoundExact(s: C.Store, threshold: nat)
    requires C.Inv(s) && s.flusher.Idle?
    ensures var r := C.FinishCycle(C.Do(s, C.Read(threshold)));
            C.Inv(r) && C.Union(r) == C.Union(s)
  {
    C.StepKeepsInv(s, C.Read(threshold));
    C.CycleKeepsInv(C.Do(s, C.Read(threshold)));
  }
}
