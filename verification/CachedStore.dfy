/** The write-behind block store. */
module CachedStore {
  // A Redis cache takes every write, and a flusher moves the earliest cached blocks to a wrapped database in three
  // separate steps. The queries are written over two snapshots, since they read the cache first and the database later.

  import opened BlockTables

  /** What one flush cycle has done so far. */
  datatype Flusher = Idle | HasRead(blocks: seq<Block>) | HasInserted(blocks: seq<Block>)

  datatype Store = Store(cache: Table, db: Table, flusher: Flusher)

  datatype StoreStep =
    | Put(batch: seq<Block>)
    | Read(threshold: nat)
    | Insert
    | Delete
    | Crash

  const TWO_TO_THE_64: int := 0x1_0000_0000_0000_0000
  const TWO_TO_THE_63: int := 0x8000_0000_0000_0000
  const TWO_TO_THE_53: int := 0x20_0000_0000_0000

  /** The value of an arithmetic result in a uint64. */
  function U64(x: int): nat {
    x % TWO_TO_THE_64
  }

  // ----- Steps -----

  function Held(s: Store): seq<Block> {
    match s.flusher
    case Idle => []
    case HasRead(blocks) => blocks
    case HasInserted(blocks) => blocks
  }

  predicate Enabled(s: Store, step: StoreStep) {
    match step
    case Put(_) => true
    case Read(_) => s.flusher.Idle?
    case Insert => s.flusher.HasRead?
    case Delete => s.flusher.HasInserted?
    case Crash => true
  }

  ghost function Do(s: Store, step: StoreStep): Store
    requires Enabled(s, step)
  {
    match step
    case Put(batch) => s.(cache := InsertIfAbsent(s.cache, batch))
    case Read(threshold) =>
      var blocks := Earliest(s.cache, threshold);
      if |blocks| >= threshold then s.(flusher := HasRead(blocks)) else s
    case Insert => s.(db := InsertIfAbsent(s.db, s.flusher.blocks), flusher := HasInserted(s.flusher.blocks))
    case Delete => s.(cache := Remove(s.cache, s.flusher.blocks), flusher := Idle)
    case Crash => s.(flusher := Idle)
  }

  /** The one sorted table that the store stands for. */
  function Union(s: Store): Table {
    s.db + s.cache
  }

  /** The two stores hold the same document for a height they share. */
  ghost predicate Agree(s: Store) {
    forall h :: h in s.cache && h in s.db ==> s.cache[h] == s.db[h]
  }

  /** The cache is upward closed and the database downward closed in the union. */
  ghost predicate Closed(s: Store) {
    forall c, d :: c in s.cache && d in s.db && c < d ==> c in s.db && d in s.cache
  }

  /** What the flusher holds is the low end of the cache, and in the database once it has been inserted. */
  ghost predicate HoldsLowEnd(s: Store) {
    && Within(Held(s), s.cache)
    && (forall c, f :: c in s.cache && c !in Heights(Held(s)) && f in Held(s) ==> c > f.height)
    && (s.flusher.HasInserted? ==> Within(s.flusher.blocks, s.db))
  }

  ghost predicate Inv(s: Store) {
    Agree(s) && Closed(s) && HoldsLowEnd(s)
  }

  /** The batch agrees with what is stored, repeats stored heights or goes beyond them, and closes no gap from below. */
  ghost predicate InOrder(s: Store, batch: seq<Block>) {
    && Consistent(Union(s), batch)
    && (forall b :: b in batch ==> b.height in Union(s) || forall u :: u in Union(s) ==> u < b.height)
    && (forall b, d :: b in batch && d in s.db && b.height < d ==> d in s.cache || d in Heights(batch))
  }

  /** No block of the batch re-enters the cache at or below a block that the flusher is about to delete. */
  ghost predicate SafeForFlusher(s: Store, batch: seq<Block>) {
    forall b, f :: b in batch && f in Held(s) ==> b.height in s.cache || b.height > f.height
  }

  ghost predicate Disciplined(s: Store, step: StoreStep) {
    step.Put? ==> InOrder(s, step.batch) && SafeForFlusher(s, step.batch)
  }

  lemma ConsistentWithCache(s: Store, batch: seq<Block>)
    requires Inv(s) && Consistent(Union(s), batch)
    ensures Consistent(s.cache, batch) && Consistent(s.db, batch)
  {
  }

  lemma EarliestFacts(t: Table, n: nat)
    ensures Ascending(Earliest(t, n)) && Within(Earliest(t, n), t)
    ensures forall c, f :: c in t && c !in Heights(Earliest(t, n)) && f in Earliest(t, n) ==> c > f.height
  {
    EarliestShape(t, n);
    forall c, f | c in t && c !in Heights(Earliest(t, n)) && f in Earliest(t, n) ensures c > f.height {
      EarliestExtreme(t, n, c);
    }
  }

  /** A put keeps the invariant exactly when it brings nothing back below what the flusher holds. */
  lemma PutKeepsInvIff(s: Store, batch: seq<Block>)
    requires Inv(s) && InOrder(s, batch)
    ensures Inv(Do(s, Put(batch))) <==> SafeForFlusher(s, batch)
  {
    PutCache(s, batch);
    PutKeepsClosed(s, batch);
    if SafeForFlusher(s, batch) {
      PutKeepsLowEnd(s, batch);
    } else {
      var b, f :| b in batch && f in Held(s) && b.height !in s.cache && b.height <= f.height;
      assert b.height !in Heights(Held(s));
      assert b.height in Do(s, Put(batch)).cache;
    }
  }

  lemma PutCache(s: Store, batch: seq<Block>)
    requires Inv(s) && Consistent(Union(s), batch)
    ensures var r := Do(s, Put(batch));
            && r.cache.Keys == s.cache.Keys + Heights(batch)
            && (forall h :: h in s.cache ==> r.cache[h] == s.cache[h])
            && Within(batch, r.cache)
  {
    ConsistentWithCache(s, batch);
    InsertIfAbsentExact(s.cache, batch);
  }

  lemma PutKeepsClosed(s: Store, batch: seq<Block>)
    requires Inv(s) && InOrder(s, batch)
    ensures Agree(Do(s, Put(batch))) && Closed(Do(s, Put(batch)))
  {
    PutCache(s, batch);
    var r := Do(s, Put(batch));
    forall h | h in r.cache && h in r.db ensures r.cache[h] == r.db[h] {
      if h !in s.cache {
        var b :| b in batch && b.height == h;
        assert Union(s)[h] == s.db[h];
      }
    }
    forall c, d | c in r.cache && d in r.db && c < d ensures c in r.db && d in r.cache {
      if c !in s.cache {
        var b :| b in batch && b.height == c;
        assert d in Union(s);
      }
    }
  }

  lemma PutKeepsLowEnd(s: Store, batch: seq<Block>)
    requires Inv(s) && InOrder(s, batch) && SafeForFlusher(s, batch)
    ensures HoldsLowEnd(Do(s, Put(batch)))
  {
    PutCache(s, batch);
    var r := Do(s, Put(batch));
    forall c, f | c in r.cache && c !in Heights(Held(r)) && f in Held(r) ensures c > f.height {
      if c !in s.cache {
        var b :| b in batch && b.height == c;
      }
    }
  }

  lemma InsertDb(s: Store)
    requires Inv(s) && s.flusher.HasRead?
    ensures var r := Do(s, Insert);
            && r.db.Keys == s.db.Keys + Heights(s.flusher.blocks)
            && (forall h :: h in s.db ==> r.db[h] == s.db[h])
            && (forall h :: h in Heights(s.flusher.blocks) ==> h in s.cache && r.db[h] == s.cache[h])
            && Within(s.flusher.blocks, r.db)
  {
    assert Consistent(s.db, s.flusher.blocks);
    InsertIfAbsentExact(s.db, s.flusher.blocks);
  }

  lemma InsertKeepsClosed(s: Store)
    requires Inv(s) && s.flusher.HasRead?
    ensures Closed(Do(s, Insert))
  {
    InsertDb(s);
    var r := Do(s, Insert);
    forall c, d | c in r.cache && d in r.db && c < d ensures c in r.db && d in r.cache {
      if d !in s.db {
        var f :| f in s.flusher.blocks && f.height == d;
      }
    }
  }

  lemma InsertKeepsInv(s: Store)
    requires Inv(s) && s.flusher.HasRead?
    ensures Inv(Do(s, Insert)) && Evolves(s, Do(s, Insert)) && Union(Do(s, Insert)) == Union(s)
  {
    InsertKeepsClosed(s);
    InsertKeepsUnion(s);
  }

  lemma InsertKeepsUnion(s: Store)
    requires Inv(s) && s.flusher.HasRead?
    ensures var r := Do(s, Insert);
            && Agree(r) && HoldsLowEnd(r)
            && Union(r) == Union(s)
            && (forall h :: h in s.db ==> h in r.db && r.db[h] == s.db[h])
  {
    InsertDb(s);
  }

  lemma DeleteKeepsInv(s: Store)
    requires Inv(s) && s.flusher.HasInserted?
    ensures Inv(Do(s, Delete)) && Evolves(s, Do(s, Delete)) && Union(Do(s, Delete)) == Union(s)
  {
    var r := Do(s, Delete);
    assert forall h :: h in Heights(s.flusher.blocks) ==> h in s.db && s.db[h] == s.cache[h];
    assert forall h :: h in Union(r) <==> h in Union(s);
  }

  /** Deleting the flushed blocks leaves the cache upward closed exactly when no other cached block lies below one of them. */
  lemma DeleteKeepsClosedIff(s: Store)
    requires s.flusher.HasInserted? && Within(s.flusher.blocks, s.db)
    requires forall c, d :: c in s.cache && d in s.db && c < d ==> d in s.cache
    ensures (forall c, d :: c in Do(s, Delete).cache && d in s.db && c < d ==> d in Do(s, Delete).cache)
            <==> (forall c, f :: c in s.cache && c !in Heights(s.flusher.blocks) && f in s.flusher.blocks ==> c >= f.height)
  {
    var blocks := s.flusher.blocks;
    var r := Do(s, Delete);
    if forall c, f :: c in s.cache && c !in Heights(blocks) && f in blocks ==> c >= f.height {
      assert forall c, h :: c in r.cache && h in Heights(blocks) ==> c >= h;
    } else {
      var c, f :| c in s.cache && c !in Heights(blocks) && f in blocks && c < f.height;
      assert c in r.cache && f.height in s.db && f.height !in r.cache;
    }
  }

  // ----- Whole runs -----

  /** The database and the union only grow, and the union only grows at its upper end. */
  ghost predicate Evolves(s: Store, s': Store) {
    && (forall h :: h in s.db ==> h in s'.db && s'.db[h] == s.db[h])
    && (forall h :: h in Union(s) ==> h in Union(s') && Union(s')[h] == Union(s)[h])
    && (forall h, u :: h in Union(s') && h !in Union(s) && u in Union(s) ==> u < h)
  }

  lemma StepKeepsInv(s: Store, step: StoreStep)
    requires Inv(s) && Enabled(s, step) && Disciplined(s, step)
    ensures Inv(Do(s, step)) && Evolves(s, Do(s, step))
  {
    match step
    case Put(batch) =>
      PutKeepsInvIff(s, batch);
      PutCache(s, batch);
    case Read(threshold) =>
      EarliestFacts(s.cache, threshold);
    case Insert => InsertKeepsInv(s);
    case Delete => DeleteKeepsInv(s);
    case Crash =>
  }

  /** A run of the store: every step is enabled where it is taken and every put obeys the discipline. */
  ghost predicate IsRun(s: Store, steps: seq<StoreStep>)
    decreases |steps|
  {
    steps == [] || (Enabled(s, steps[0]) && Disciplined(s, steps[0]) && IsRun(Do(s, steps[0]), steps[1..]))
  }

  ghost function After(s: Store, steps: seq<StoreStep>): Store
    requires IsRun(s, steps)
    decreases |steps|
  {
    if steps == [] then s else After(Do(s, steps[0]), steps[1..])
  }

  lemma EvolvesTransitive(a: Store, b: Store, c: Store)
    requires Evolves(a, b) && Evolves(b, c)
    ensures Evolves(a, c)
  {
    forall h, u | h in Union(c) && h !in Union(a) && u in Union(a) ensures u < h {
      assert u in Union(b);
    }
  }

  /** Every run keeps the invariant, and never loses or overwrites a block. */
  lemma {:induction false} RunKeepsInv(s: Store, steps: seq<StoreStep>)
    requires Inv(s) && IsRun(s, steps)
    ensures Inv(After(s, steps)) && Evolves(s, After(s, steps))
    decreases |steps|
  {
    if steps != [] {
      StepKeepsInv(s, steps[0]);
      RunKeepsInv(Do(s, steps[0]), steps[1..]);
      EvolvesTransitive(s, Do(s, steps[0]), After(s, steps));
    }
  }

  // ----- GetBlocks -----

  /** What GetBlocks answers once the cache has returned `cached` and the database is in state `db`. */
  function FinishGetBlocks(cached: seq<Block>, db: Table, lo: nat, hi: nat): seq<Block> {
    if |cached| == U64(hi - lo + 1) then cached
    else if cached == [] then Range(db, lo, hi)
    else Range(db, lo, U64(cached[0].height - 1)) + cached
  }

  function GetBlocks(s: Store, lo: nat, hi: nat): seq<Block> {
    if lo > hi || U64(hi - lo + 1) == 0 then []
    else FinishGetBlocks(Range(s.cache, lo, hi), s.db, lo, hi)
  }

  /** Heights are at least 1 and small enough for the doubles that Redis keeps scores in. */
  ghost predicate Bounded(s: Store) {
    forall h :: h in Union(s) ==> 1 <= h < TWO_TO_THE_53
  }

  lemma EmptyRange(t: Table, lo: nat, hi: nat)
    ensures Range(t, lo, hi) == [] <==> forall h :: lo <= h <= hi ==> h !in t
  {
    RangeExact(t, lo, hi);
    if Range(t, lo, hi) != [] {
      assert Range(t, lo, hi)[0] in Range(t, lo, hi);
    }
    forall h | lo <= h <= hi && h in t ensures Range(t, lo, hi) != [] {
      assert Block(h, t[h]) in Range(t, lo, hi);
    }
  }

  lemma {:induction false} RangePrefix(t: Table, t': Table, lo: nat, hi: nat)
    requires forall h :: h in t && lo <= h <= hi ==> h in t' && t'[h] == t[h]
    requires forall h, u :: h in t' && h !in t && lo <= h <= hi && u in t && lo <= u <= hi ==> u < h
    ensures Range(t, lo, hi) <= Range(t', lo, hi)
    decreases hi + 1 - lo
  {
    if lo <= hi {
      if lo in t' && lo !in t {
        EmptyRange(t, lo, hi);
      } else {
        RangePrefix(t, t', lo + 1, hi);
      }
    }
  }

  /**
   GetBlocks reads the cache in one state and the database in a later one, with any disciplined steps in
   between. It returns every stored block of the range that was there when it began, and what it returns
   is a hole-free prefix of the blocks of the range that are there when it ends.
   */
  lemma GetBlocksSandwich(s: Store, s': Store, lo: nat, hi: nat)
    requires Inv(s) && Inv(s') && Evolves(s, s') && Bounded(s)
    requires lo <= hi && hi - lo + 1 < TWO_TO_THE_64
    ensures var r := FinishGetBlocks(Range(s.cache, lo, hi), s'.db, lo, hi);
            Range(Union(s), lo, hi) <= r <= Range(Union(s'), lo, hi)
  {
    var cached := Range(s.cache, lo, hi);
    UnionPrefix(s, s', lo, hi);
    assert U64(hi - lo + 1) == hi - lo + 1;
    if |cached| == hi - lo + 1 {
      AllCached(s, lo, hi);
    } else if cached == [] {
      NothingCached(s, s', lo, hi);
    } else {
      PartlyCached(s, s', lo, hi);
    }
  }

  lemma UnionPrefix(s: Store, s': Store, lo: nat, hi: nat)
    requires Evolves(s, s')
    ensures Range(Union(s), lo, hi) <= Range(Union(s'), lo, hi)
  {
    RangePrefix(Union(s), Union(s'), lo, hi);
  }

  lemma AllCached(s: Store, lo: nat, hi: nat)
    requires lo <= hi && |Range(s.cache, lo, hi)| == hi - lo + 1
    ensures Range(s.cache, lo, hi) == Range(Union(s), lo, hi)
  {
    RangeLength(s.cache, lo, hi);
    RangeAgree(s.cache, Union(s), lo, hi);
  }

  lemma NothingCached(s: Store, s': Store, lo: nat, hi: nat)
    requires Inv(s) && Inv(s') && Evolves(s, s') && Range(s.cache, lo, hi) == []
    ensures Range(Union(s), lo, hi) <= Range(s'.db, lo, hi) <= Range(Union(s'), lo, hi)
  {
    EmptyRange(s.cache, lo, hi);
    forall h | h in Union(s) && lo <= h <= hi ensures h in s'.db && s'.db[h] == Union(s)[h] {
    }
    forall h | h in s'.db ensures h in Union(s') && Union(s')[h] == s'.db[h] {
    }
    RangePrefix(Union(s), s'.db, lo, hi);
    RangePrefix(s'.db, Union(s'), lo, hi);
  }

  lemma PartlyCached(s: Store, s': Store, lo: nat, hi: nat)
    requires Inv(s) && Inv(s') && Evolves(s, s') && Bounded(s)
    requires lo <= hi && Range(s.cache, lo, hi) != []
    ensures var cached := Range(s.cache, lo, hi);
            Range(s'.db, lo, U64(cached[0].height - 1)) + cached == Range(Union(s), lo, hi)
  {
    LeastCached(s, lo, hi);
    var m := Range(s.cache, lo, hi)[0].height;
    CachedHeight(s, m);
    JoinedAt(s, s', lo, m, hi);
  }

  lemma CachedHeight(s: Store, h: nat)
    requires Bounded(s) && h in s.cache
    ensures 1 <= h && U64(h - 1) == h - 1
  {
    assert h in Union(s);
    Small(h - 1);
  }

  lemma Small(x: nat)
    requires x < TWO_TO_THE_64
    ensures U64(x) == x
  {
  }

  lemma JoinedAt(s: Store, s': Store, lo: nat, m: nat, hi: nat)
    requires Inv(s) && Inv(s') && Evolves(s, s')
    requires lo <= m <= hi && 1 <= m && m in s.cache && forall h :: lo <= h < m ==> h !in s.cache
    requires forall h :: m <= h && h in Union(s) ==> h in s.cache
    ensures Range(s'.db, lo, m - 1) + Range(s.cache, lo, hi) == Range(Union(s), lo, hi)
  {
    BelowCache(s, s', lo, m);
    FromCache(s, lo, m, hi);
    RangeSplit(Union(s), lo, m, hi);
  }

  lemma FromCache(s: Store, lo: nat, m: nat, hi: nat)
    requires lo <= m <= hi && (forall h :: lo <= h < m ==> h !in s.cache)
    requires forall h :: m <= h && h in Union(s) ==> h in s.cache
    ensures Range(s.cache, lo, hi) == Range(Union(s), m, hi)
  {
    NoneBelow(s.cache, lo, m, hi);
    RangeAgree(s.cache, Union(s), m, hi);
  }

  /** Below the lowest cached height of a range the database has what the union had, later on, too. */
  lemma BelowCache(s: Store, s': Store, lo: nat, m: nat)
    requires Inv(s) && Inv(s') && Evolves(s, s')
    requires 1 <= m && m in s.cache && forall h :: lo <= h < m ==> h !in s.cache
    ensures Range(s'.db, lo, m - 1) == Range(Union(s), lo, m - 1)
  {
    forall h | lo <= h <= m - 1
      ensures h in s'.db <==> h in Union(s)
      ensures h in s'.db ==> s'.db[h] == Union(s)[h]
    {
      assert h in s'.db ==> h in Union(s') && Union(s')[h] == s'.db[h];
    }
    RangeAgree(s'.db, Union(s), lo, m - 1);
  }

  lemma LeastCached(s: Store, lo: nat, hi: nat)
    requires Inv(s) && Range(s.cache, lo, hi) != []
    ensures var m := Range(s.cache, lo, hi)[0].height;
            && lo <= m <= hi && m in s.cache
            && (forall h :: lo <= h < m ==> h !in s.cache)
            && (forall h :: m <= h && h in Union(s) ==> h in s.cache)
  {
    var cached := Range(s.cache, lo, hi);
    RangeExact(s.cache, lo, hi);
    assert cached[0] in cached;
    forall h | lo <= h <= hi && h in s.cache ensures cached[0].height <= h {
      assert Block(h, s.cache[h]) in cached;
    }
  }

  lemma NoneBelow(t: Table, lo: nat, m: nat, hi: nat)
    requires lo <= m <= hi && forall h :: lo <= h < m ==> h !in t
    ensures Range(t, lo, hi) == Range(t, m, hi)
  {
    RangeExact(t, lo, hi);
    RangeExact(t, m, hi);
    AscendingUnique(Range(t, lo, hi), Range(t, m, hi));
  }

  lemma EvolvesReflexive(s: Store)
    ensures Evolves(s, s)
  {
  }

  /**
   GetBlocks under concurrency: the cache is read in one state, then any puts and flusher steps happen, then the
   database is read. The answer has every block of the range that was stored in the beginning, and it is a prefix,
   without a hole, of the blocks of the range that are stored in the end.
   */
  lemma GetBlocksDuringRun(s: Store, steps: seq<StoreStep>, lo: nat, hi: nat)
    requires Inv(s) && Bounded(s) && IsRun(s, steps)
    requires lo <= hi && hi - lo + 1 < TWO_TO_THE_64
    ensures var answer := FinishGetBlocks(Range(s.cache, lo, hi), After(s, steps).db, lo, hi);
            Range(Union(s), lo, hi) <= answer <= Range(Union(After(s, steps)), lo, hi)
  {
    RunKeepsInv(s, steps);
    GetBlocksSandwich(s, After(s, steps), lo, hi);
  }

  /** Blocks that are newer than all stored ones may be put at any time, whatever the flusher is doing. */
  lemma NewerPutsAreDisciplined(s: Store, batch: seq<Block>)
    requires Inv(s)
    requires forall b, b' :: b in batch && b' in batch && b.height == b'.height ==> b == b'
    requires forall b, u :: b in batch && u in Union(s) ==> u < b.height
    ensures Disciplined(s, Put(batch))
  {
    forall b, f | b in batch && f in Held(s) ensures b.height > f.height {
      assert f.height in Union(s);
    }
    forall b, d | b in batch && d in s.db ensures d < b.height {
      assert d in Union(s);
    }
  }

  /** With nothing in between, GetBlocks is the range query on the union. */
  lemma GetBlocksExact(s: Store, lo: nat, hi: nat)
    requires Inv(s) && Bounded(s) && hi + 1 < TWO_TO_THE_64
    ensures GetBlocks(s, lo, hi) == Range(Union(s), lo, hi)
  {
    if lo <= hi {
      EvolvesReflexive(s);
      GetBlocksSandwich(s, s, lo, hi);
    }
  }

  // ----- A replayed batch during a flush cycle -----

  /** The rest of the current flush cycle. */
  ghost function FinishCycle(s: Store): Store {
    match s.flusher
    case Idle => s
    case HasRead(_) => Do(Do(s, Insert), Delete)
    case HasInserted(_) => Do(s, Delete)
  }

  lemma CycleKeepsInv(s: Store)
    requires Inv(s)
    ensures Inv(FinishCycle(s)) && Union(FinishCycle(s)) == Union(s)
  {
    match s.flusher
    case Idle =>
    case HasRead(_) =>
      InsertKeepsInv(s);
      DeleteKeepsInv(Do(s, Insert));
    case HasInserted(_) =>
      DeleteKeepsInv(s);
  }

  /**
   A batch may be stored again while a flush cycle is under way. Once the cycle is over, every range query
   is answered in full exactly when no block of the batch came back at or below a block of the cycle.
   */
  lemma ReplayIsHarmlessIff(s: Store, batch: seq<Block>)
    requires Inv(s) && InOrder(s, batch) && Bounded(Do(s, Put(batch)))
    ensures var r := FinishCycle(Do(s, Put(batch)));
            (forall lo: nat, hi: nat :: hi + 1 < TWO_TO_THE_64 ==> GetBlocks(r, lo, hi) == Range(Union(r), lo, hi))
            <==> SafeForFlusher(s, batch)
  {
    var p := Do(s, Put(batch));
    var r := FinishCycle(p);
    if SafeForFlusher(s, batch) {
      PutKeepsInvIff(s, batch);
      CycleKeepsInv(p);
      forall lo: nat, hi: nat | hi + 1 < TWO_TO_THE_64 ensures GetBlocks(r, lo, hi) == Range(Union(r), lo, hi) {
        GetBlocksExact(r, lo, hi);
      }
    } else {
      var b, f :| b in batch && f in Held(s) && b.height !in s.cache && b.height <= f.height;
      ReplayLeavesHole(s, batch, b, f);
    }
  }

  /** Otherwise the flushed block is stored and yet missing from the answer to a range query that covers it. */
  lemma ReplayLeavesHole(s: Store, batch: seq<Block>, b: Block, f: Block)
    requires Inv(s) && InOrder(s, batch) && Bounded(Do(s, Put(batch)))
    requires b in batch && f in Held(s) && b.height !in s.cache && b.height <= f.height
    ensures var r := FinishCycle(Do(s, Put(batch)));
            && f.height + 1 < TWO_TO_THE_64
            && f in Range(Union(r), b.height, f.height)
            && f !in GetBlocks(r, b.height, f.height)
            && GetBlocks(r, b.height, f.height) != []
  {
    var p := Do(s, Put(batch));
    var r := FinishCycle(p);
    PutCache(s, batch);
    ConsistentWithCache(s, batch);
    CycleMovesHeld(s, batch, f);
    var lo, hi := b.height, f.height;
    assert hi in Union(p) && lo in Union(p);
    assert lo in p.cache && lo !in Heights(Held(s));
    RangeExact(Union(r), lo, hi);
    OnlyCachePart(r, lo, hi);
  }

  /** A range whose first height is cached and whose last is not is answered from the cache alone. */
  lemma OnlyCachePart(r: Store, lo: nat, hi: nat)
    requires 1 <= lo <= hi && hi + 1 < TWO_TO_THE_64 && lo in r.cache && hi !in r.cache
    ensures GetBlocks(r, lo, hi) == Range(r.cache, lo, hi) != []
    ensures forall b :: b in GetBlocks(r, lo, hi) ==> b.height != hi
  {
    var cached := Range(r.cache, lo, hi);
    RangeExact(r.cache, lo, hi);
    RangeLength(r.cache, lo, hi);
    assert Block(lo, r.cache[lo]) in cached;
    assert cached[0] in cached;
    assert Range(r.db, lo, U64(lo - 1)) == [];
  }

  lemma CycleMovesHeld(s: Store, batch: seq<Block>, f: Block)
    requires Inv(s) && Consistent(s.cache, batch) && f in Held(s)
    ensures var p := Do(s, Put(batch));
            var r := FinishCycle(p);
            && r.cache == Remove(p.cache, Held(s))
            && f.height in r.db && r.db[f.height] == f.data && f.height !in r.cache
  {
    if s.flusher.HasRead? {
      assert Consistent(s.db, s.flusher.blocks);
      InsertIfAbsentExact(s.db, s.flusher.blocks);
    }
  }
}
