/** The queries for the newest blocks of the cached store, and what they answer on consecutive heights. */
module LatestBlocks {
  import opened BlockTables
  import opened CachedStore

  /** The heights of a table are exactly base, base + 1, ..., tip - 1. */
  ghost predicate Contiguous(t: Table, base: nat, tip: nat) {
    base <= tip && forall h :: h in t <==> base <= h < tip
  }

  /** What GetLatestBlocks answers once the cache has returned `cached`; all heights are computed in a uint64. */
  ghost function FinishLatestBlocks(cached: seq<Block>, db: Table, limit: nat): seq<Block> {
    if |cached| == limit then cached
    else if cached == [] then Latest(db, limit)
    else
      var end := U64(cached[|cached| - 1].height - 1);
      var start := U64(end - U64(limit - |cached|) + 1);
      SortDescending(cached + Range(db, start, end))
  }

  ghost function GetLatestBlocks(s: Store, limit: int): seq<Block> {
    if limit <= 0 then [] else FinishLatestBlocks(Latest(s.cache, limit), s.db, limit)
  }

  /** The single latest block, if any, as a sequence of at most one element. */
  ghost function GetLatestBlock(s: Store): seq<Block> {
    var cached := Latest(s.cache, 1);
    if cached != [] then cached else Latest(s.db, 1)
  }

  /** On consecutive heights the n latest blocks are those less than n below the tip. */
  lemma {:induction false} LatestContiguous(t: Table, base: nat, tip: nat, n: nat)
    requires Contiguous(t, base, tip)
    ensures forall b :: b in Latest(t, n) <==> b.height in t && t[b.height] == b.data && b.height + n >= tip
    decreases n
  {
    if base == tip {
      assert t.Keys == {};
    } else if n > 0 {
      assert tip - 1 in t;
      assert Highest(t) == tip - 1;
      LatestContiguous(t - {tip - 1}, base, tip - 1, n - 1);
      var rest := Latest(t - {tip - 1}, n - 1);
      assert Latest(t, n) == [Block(tip - 1, t[tip - 1])] + rest;
    }
  }

  /** The cache of a contiguous store is its upper end. */
  lemma CacheIsUpperEnd(s: Store, base: nat, tip: nat)
    requires Inv(s) && Contiguous(Union(s), base, tip) && s.cache.Keys != {}
    ensures base <= Lowest(s.cache) < tip
    ensures Contiguous(s.cache, Lowest(s.cache), tip)
    ensures forall h :: base <= h < Lowest(s.cache) ==> h in s.db
  {
    var m := Lowest(s.cache);
    assert m in Union(s);
    forall h | m <= h < tip ensures h in s.cache {
      assert h in Union(s);
    }
    forall h | h in s.cache ensures m <= h < tip {
      assert h in Union(s);
    }
    forall h | base <= h < m ensures h in s.db {
      assert h in Union(s);
    }
  }

  /** `r` holds the blocks of the table from height hi down to height lo, all of them. */
  ghost predicate RunsDown(r: seq<Block>, t: Table, lo: nat, hi: nat) {
    && lo <= hi && (forall h :: lo <= h <= hi ==> h in t)
    && |r| == hi - lo + 1
    && (forall i :: 0 <= i < |r| ==> hi - i in t && r[i] == Block(hi - i, t[hi - i]))
  }

  /** `r` holds stored blocks of consecutive heights from lo upwards. */
  ghost predicate RunsUp(r: seq<Block>, t: Table, lo: nat) {
    (forall i :: 0 <= i < |r| ==> r[i].height == lo + i) && Within(r, t)
  }

  /** The sequence has exactly the blocks of the table between two heights, and the table has all of those heights. */
  ghost predicate AllOf(r: seq<Block>, t: Table, lo: nat, hi: int) {
    && (forall h :: lo <= h <= hi ==> h in t)
    && (forall b :: b in r <==> lo <= b.height <= hi && b.height in t && t[b.height] == b.data)
  }

  lemma DescendingHead(r: seq<Block>, t: Table, lo: nat, hi: nat)
    requires Descending(r) && lo <= hi && AllOf(r, t, lo, hi)
    ensures r != [] && r[0] == Block(hi, t[hi])
    ensures Descending(r[1..]) && AllOf(r[1..], t, lo, hi - 1)
  {
    var top := Block(hi, t[hi]);
    assert top in r;
    assert r[0] in r;
    var i :| 0 <= i < |r| && r[i] == top;
    assert i == 0;
    TailMembers(r);
    DescendingTail(r);
  }

  /** A descending sequence of all blocks of an unbroken range is that range read downwards. */
  lemma {:induction false} DescendingRun(r: seq<Block>, t: Table, lo: nat, hi: int)
    requires Descending(r) && lo <= hi + 1 && AllOf(r, t, lo, hi)
    ensures lo <= hi ==> RunsDown(r, t, lo, hi)
    ensures lo == hi + 1 ==> r == []
    decreases hi + 1 - lo
  {
    assert r != [] ==> r[0] in r;
    if lo <= hi {
      DescendingHead(r, t, lo, hi);
      DescendingRun(r[1..], t, lo, hi - 1);
      RunExtended(r, t, lo, hi);
    }
  }

  lemma RunExtended(r: seq<Block>, t: Table, lo: nat, hi: nat)
    requires hi in t && r != [] && r[0] == Block(hi, t[hi])
    requires if lo < hi then RunsDown(r[1..], t, lo, hi - 1) else lo == hi && r[1..] == []
    ensures RunsDown(r, t, lo, hi)
  {
    assert forall k :: 1 <= k < |r| ==> r[k] == r[1..][k - 1];
  }

  // ----- A part from the cache and a part from the database -----

  /** Sorting what came from the cache and what came from the database leaves one descending run. */
  lemma MergedRun(cached: seq<Block>, t: Table, db: Table, lo: nat, m: nat, hi: nat)
    requires RunsDown(cached, t, m, hi) && lo < m
    requires forall h :: lo <= h < m ==> h in t && h in db && db[h] == t[h]
    ensures RunsDown(SortDescending(cached + Range(db, lo, m - 1)), t, lo, hi)
  {
    var older := Range(db, lo, m - 1);
    var all := cached + older;
    RangeExact(db, lo, m - 1);
    forall i, j | 0 <= i < j < |all| ensures all[i].height != all[j].height {
      if i < |cached| <= j {
        assert older[j - |cached|] in older;
      }
    }
    SortDescendingExact(all);
    RunMembers(cached, t, m, hi);
    forall b ensures b in SortDescending(all) <==> lo <= b.height <= hi && b.height in t && t[b.height] == b.data {
      assert b in all <==> b in cached || b in older;
    }
    DescendingRun(SortDescending(all), t, lo, hi);
  }

  lemma RunMembers(r: seq<Block>, t: Table, lo: nat, hi: nat)
    requires RunsDown(r, t, lo, hi)
    ensures forall b :: b in r <==> lo <= b.height <= hi && b.height in t && t[b.height] == b.data
    ensures Descending(r)
  {
    forall b: Block | lo <= b.height <= hi && b.height in t && t[b.height] == b.data ensures b in r {
      assert r[hi - b.height] == b;
    }
  }

  lemma RunHeights(r: seq<Block>, t: Table, lo: nat, hi: nat)
    requires RunsDown(r, t, lo, hi)
    ensures forall h :: h in Heights(r) <==> lo <= h <= hi
  {
    RunMembers(r, t, lo, hi);
    forall h | lo <= h <= hi ensures h in Heights(r) {
      assert Block(h, t[h]) in r;
    }
  }

  lemma RunUnique(a: seq<Block>, b: seq<Block>, t: Table, lo: nat, hi: nat)
    requires RunsDown(a, t, lo, hi) && RunsDown(b, t, lo, hi)
    ensures a == b
  {
  }

  /** On consecutive heights, what the latest-blocks query should return. */
  lemma LatestRun(t: Table, base: nat, tip: nat, n: nat)
    requires Contiguous(t, base, tip) && base < tip && n > 0
    ensures RunsDown(Latest(t, n), t, if base + n >= tip then base else tip - n, tip - 1)
  {
    LatestContiguous(t, base, tip, n);
    LatestShape(t, n);
    DescendingRun(Latest(t, n), t, if base + n >= tip then base else tip - n, tip - 1);
  }

  /** The lowest height that a read of the `limit` latest cached blocks returns. */
  ghost function CachedFrom(s: Store, tip: nat, limit: nat): nat
    requires s.cache.Keys != {}
  {
    if tip - Lowest(s.cache) <= limit then Lowest(s.cache) else tip - limit
  }

  /** What was read from the cache: everything in it, or the requested number of latest blocks of the store. */
  lemma CachedPart(s: Store, tip: nat, limit: nat)
    requires s.cache.Keys != {} && Contiguous(s.cache, Lowest(s.cache), tip) && limit > 0
    ensures RunsDown(Latest(s.cache, limit), Union(s), CachedFrom(s, tip, limit), tip - 1)
  {
    assert Lowest(s.cache) < tip;
    LatestRun(s.cache, Lowest(s.cache), tip, limit);
    CacheRunInUnion(Latest(s.cache, limit), s, CachedFrom(s, tip, limit), tip - 1);
  }

  lemma NothingLatest(s: Store, limit: nat)
    requires limit > 0
    ensures Latest(s.cache, limit) == [] <==> s.cache.Keys == {}
    ensures s.cache.Keys == {} ==> Union(s) == s.db
  {
    assert s.cache.Keys == {} ==> Union(s) == s.db;
  }

  lemma CacheRunInUnion(r: seq<Block>, s: Store, lo: nat, hi: nat)
    requires RunsDown(r, s.cache, lo, hi)
    ensures RunsDown(r, Union(s), lo, hi)
  {
  }

  /**
   GetLatestBlocks returns the `limit` latest blocks of the union in descending order exactly when the cache
   answers alone, or is empty, or the subtraction from the lowest cached height does not wrap around, or
   there is nothing older to return. (`max(0, ...)` compares uint64 values and never clamps.)
   */
  lemma LatestBlocksExactIff(s: Store, base: nat, tip: nat, limit: nat)
    requires Inv(s) && Bounded(s) && Contiguous(Union(s), base, tip)
    requires 0 < limit < TWO_TO_THE_63
    ensures var cached := Latest(s.cache, limit);
            GetLatestBlocks(s, limit) == Latest(Union(s), limit)
            <==> |cached| == limit || cached == []
                 || cached[|cached| - 1].height >= limit - |cached|
                 || cached[|cached| - 1].height == base
  {
    NothingLatest(s, limit);
    if s.cache.Keys != {} {
      CacheIsUpperEnd(s, base, tip);
      assert Lowest(s.cache) in Union(s);
      EvolvesReflexive(s);
      SameInUnion(s, s, base, tip, tip);
      ExactIffOnUpperEnd(s, base, tip, limit);
    }
  }

  function Wrapping(x: Data): Store {
    Store(map[3 := x], map[1 := x, 2 := x], Idle)
  }

  lemma WrappingCache(x: Data)
    ensures Latest(Wrapping(x).cache, 10) == [Block(3, x)]
  {
    var t := Wrapping(x).cache;
    assert 3 in t;
    assert Highest(t) == 3;
    assert Latest(t - {3}, 9) == [];
  }

  lemma WrappingAnswer(x: Data)
    ensures FinishLatestBlocks([Block(3, x)], Wrapping(x).db, 10) == [Block(3, x)]
  {
    var cached, start := [Block(3, x)], U64(2 - 9 + 1);
    assert U64(3 - 1) == 2 && U64(10 - 1) == 9 && start > 2;
    assert Range(Wrapping(x).db, start, 2) == [];
    assert cached + [] == cached && cached[1..] == [];
    assert SortDescending(cached) == InsertDescending([], Block(3, x));
  }

  /** Block 3 is cached, blocks 1 and 2 are in the database, and the ten latest blocks are asked for: only block 3 comes. */
  lemma WrapAroundLosesBlocks(x: Data)
    ensures var s := Wrapping(x);
            && Inv(s) && Bounded(s) && Contiguous(Union(s), 1, 4)
            && GetLatestBlocks(s, 10) == [Block(3, x)] && GetLatestBlocks(s, 10) != Latest(Union(s), 10)
  {
    WrappingCache(x);
    WrappingAnswer(x);
    LatestBlocksExactIff(Wrapping(x), 1, 4, 10);
  }

  lemma ExactIffOnUpperEnd(s: Store, base: nat, tip: nat, limit: nat)
    requires s.cache.Keys != {} && Contiguous(s.cache, Lowest(s.cache), tip) && Evolves(s, s)
    requires Contiguous(Union(s), base, tip)
    requires base <= Lowest(s.cache) && 1 <= Lowest(s.cache) < TWO_TO_THE_53 && 0 < limit < TWO_TO_THE_63
    requires forall h :: base <= h < Lowest(s.cache) ==> h in Union(s) && h in s.db && s.db[h] == Union(s)[h]
    requires forall h :: h in s.db ==> base <= h
    ensures var cached := Latest(s.cache, limit);
            && cached != []
            && (GetLatestBlocks(s, limit) == Latest(Union(s), limit)
                <==> |cached| == limit
                     || cached[|cached| - 1].height >= limit - |cached|
                     || cached[|cached| - 1].height == base)
  {
    assert Lowest(s.cache) < tip;
    if |Latest(s.cache, limit)| == limit {
      FullyCachedExact(s, base, tip, limit);
    } else {
      LatestRun(Union(s), base, tip, limit);
      LatestLength(s.cache, limit);
      PartlyCachedLatest(s, s, base, tip, limit);
      PartialIff(s, base, tip, limit);
      PartialHead(s, base, tip, limit);
    }
  }

  /** The cache answers alone. */
  lemma FullyCachedExact(s: Store, base: nat, tip: nat, limit: nat)
    requires s.cache.Keys != {} && Contiguous(s.cache, Lowest(s.cache), tip) && Contiguous(Union(s), base, tip)
    requires limit > 0 && |Latest(s.cache, limit)| == limit
    ensures GetLatestBlocks(s, limit) == Latest(Union(s), limit)
  {
    assert Lowest(s.cache) in Union(s);
    LatestRun(Union(s), base, tip, limit);
    CachedPart(s, tip, limit);
    RunUnique(Latest(s.cache, limit), Latest(Union(s), limit), Union(s), tip - limit, tip - 1);
  }

  lemma PartialHead(s: Store, base: nat, tip: nat, limit: nat)
    requires s.cache.Keys != {} && PartialOutcome(s, s, base, tip, limit)
    ensures var cached := Latest(s.cache, limit);
            cached != [] && cached[|cached| - 1].height == Lowest(s.cache)
  {
  }

  lemma PartialIff(s: Store, base: nat, tip: nat, limit: nat)
    requires s.cache.Keys != {} && |Latest(s.cache, limit)| < limit && PartialOutcome(s, s, base, tip, limit)
    requires RunsDown(Latest(Union(s), limit), Union(s), if base + limit >= tip then base else tip - limit, tip - 1)
    ensures GetLatestBlocks(s, limit) == Latest(Union(s), limit)
            <==> Lowest(s.cache) >= limit - |Latest(s.cache, limit)| || Lowest(s.cache) == base
  {
    var m := Lowest(s.cache);
    var lo := if base + limit >= tip then base else tip - limit;
    if m >= limit - |Latest(s.cache, limit)| || m == base {
      RunUnique(GetLatestBlocks(s, limit), Latest(Union(s), limit), Union(s), lo, tip - 1);
    } else {
      assert |GetLatestBlocks(s, limit)| == tip - m;
    }
  }

  /** There is room below the cache: the missing blocks come from the database. */
  lemma AnswerFromBoth(cached: seq<Block>, t: Table, db: Table, base: nat, m: nat, tip: nat, limit: nat)
    requires m < tip && RunsDown(cached, t, m, tip - 1) && base < m
    requires 1 <= m < TWO_TO_THE_53 && |cached| < limit < TWO_TO_THE_63 && m >= limit - |cached|
    requires forall h :: base <= h < m ==> h in t && h in db && db[h] == t[h]
    requires forall h :: h in db ==> base <= h
    ensures RunsDown(FinishLatestBlocks(cached, db, limit), t, if base + limit >= tip then base else tip - limit, tip - 1)
  {
    var more := limit - |cached|;
    StartHeight(m, more);
    assert cached[|cached| - 1].height == m;
    var lo := if m - more < base then base else m - more;
    NoneBelow(db, m - more, lo, m - 1);
    MergedRun(cached, t, db, lo, m, tip - 1);
  }

  /** The subtraction wraps around, or nothing lies below the cache: what was cached is the answer. */
  lemma AnswerFromCache(cached: seq<Block>, t: Table, db: Table, base: nat, m: nat, tip: nat, limit: nat)
    requires m < tip && RunsDown(cached, t, m, tip - 1) && base <= m
    requires 1 <= m < TWO_TO_THE_53 && |cached| < limit < TWO_TO_THE_63 && (m < limit - |cached| || m == base)
    requires forall h :: h in db ==> base <= h
    ensures RunsDown(FinishLatestBlocks(cached, db, limit), t, m, tip - 1)
  {
    var more := limit - |cached|;
    StartHeight(m, more);
    assert cached[|cached| - 1].height == m;
    EmptyRange(db, U64(U64(m - 1) - U64(more) + 1), U64(m - 1));
    SortedAlready(cached, t, m, tip - 1);
  }

  /** The answer when the cache had some blocks but not enough; the arithmetic may wrap around. */
  lemma PartialAnswer(cached: seq<Block>, t: Table, db: Table, base: nat, m: nat, tip: nat, limit: nat)
    requires m < tip && RunsDown(cached, t, m, tip - 1) && base <= m
    requires 1 <= m < TWO_TO_THE_53 && |cached| < limit < TWO_TO_THE_63
    requires forall h :: base <= h < m ==> h in t && h in db && db[h] == t[h]
    requires forall h :: h in db ==> base <= h
    ensures PartialRun(FinishLatestBlocks(cached, db, limit), t, base, m, tip, limit, limit - |cached|)
  {
    if m >= limit - |cached| && m > base {
      AnswerFromBoth(cached, t, db, base, m, tip, limit);
    } else {
      AnswerFromCache(cached, t, db, base, m, tip, limit);
    }
  }

  ghost predicate PartialRun(r: seq<Block>, t: Table, base: nat, m: nat, tip: nat, limit: nat, more: nat)
    requires m < tip
  {
    && (m >= more && m > base ==> RunsDown(r, t, if base + limit >= tip then base else tip - limit, tip - 1))
    && (m < more || m == base ==> RunsDown(r, t, m, tip - 1))
  }

  lemma SameInUnion(s: Store, s': Store, base: nat, tip: nat, tip': nat)
    requires Inv(s) && Inv(s') && Evolves(s, s')
    requires Contiguous(Union(s), base, tip) && Contiguous(Union(s'), base, tip') && s.cache.Keys != {}
    ensures forall h :: base <= h < Lowest(s.cache) ==> h in Union(s') && h in s'.db && s'.db[h] == Union(s')[h]
    ensures forall h :: h in s'.db ==> base <= h
  {
    CacheIsUpperEnd(s, base, tip);
    forall h | h in s'.db ensures base <= h {
      assert h in Union(s');
    }
    forall h | base <= h < Lowest(s.cache) ensures h in Union(s') && h in s'.db && s'.db[h] == Union(s')[h] {
      assert h in s.db;
    }
  }

  lemma PartlyCachedLatest(s: Store, s': Store, base: nat, tip: nat, limit: nat)
    requires s.cache.Keys != {} && Contiguous(s.cache, Lowest(s.cache), tip) && Evolves(s, s')
    requires base <= Lowest(s.cache) && 1 <= Lowest(s.cache) < TWO_TO_THE_53
    requires 0 < limit < TWO_TO_THE_63 && |Latest(s.cache, limit)| < limit
    requires forall h :: base <= h < Lowest(s.cache) ==> h in Union(s') && h in s'.db && s'.db[h] == Union(s')[h]
    requires forall h :: h in s'.db ==> base <= h
    ensures PartialOutcome(s, s', base, tip, limit)
  {
    CachedPart(s, tip, limit);
    var cached := Latest(s.cache, limit);
    assert CachedFrom(s, tip, limit) == Lowest(s.cache);
    RunKept(cached, s, s', Lowest(s.cache), tip - 1);
    PartialAnswer(cached, Union(s'), s'.db, base, Lowest(s.cache), tip, limit);
  }

  ghost predicate PartialOutcome(s: Store, s': Store, base: nat, tip: nat, limit: nat)
    requires s.cache.Keys != {}
  {
    var cached := Latest(s.cache, limit);
    var m := Lowest(s.cache);
    && base <= m < tip && |cached| == tip - m && |cached| < limit && cached[|cached| - 1].height == m
    && PartialRun(FinishLatestBlocks(cached, s'.db, limit), Union(s'), base, m, tip, limit, limit - |cached|)
  }

  lemma RunKept(r: seq<Block>, s: Store, s': Store, lo: nat, hi: nat)
    requires RunsDown(r, Union(s), lo, hi) && Evolves(s, s')
    ensures RunsDown(r, Union(s'), lo, hi)
  {
  }

  /** The uint64 arithmetic for the heights below the cache: it wraps around when fewer than `more` heights exist. */
  lemma StartHeight(m: nat, more: nat)
    requires 1 <= m < TWO_TO_THE_53 && 0 < more < TWO_TO_THE_63
    ensures U64(m - 1) == m - 1
    ensures m >= more ==> U64(U64(m - 1) - U64(more) + 1) == m - more
    ensures m < more ==> U64(U64(m - 1) - U64(more) + 1) > m - 1
  {
    assert U64(more) == more;
    if m < more {
      assert (m - more) % TWO_TO_THE_64 == m - more + TWO_TO_THE_64;
    }
  }

  lemma SortedAlready(r: seq<Block>, t: Table, lo: nat, hi: nat)
    requires RunsDown(r, t, lo, hi)
    ensures SortDescending(r + []) == r
  {
    RunMembers(r, t, lo, hi);
    assert r + [] == r;
    SortDescendingExact(r);
    DescendingUnique(SortDescending(r), r);
  }

  /**
   Reading the cache in one state and the database in a later one, GetLatestBlocks on a store of consecutive
   heights that is not empty returns an unbroken descending run of stored blocks that is not empty, and that begins
   no lower than the block that was the latest one in the beginning.
   */
  lemma LatestBlocksSnapshot(s: Store, s': Store, base: nat, tip: nat, tip': nat, limit: nat) returns (lo: nat, hi: nat)
    requires Inv(s) && Inv(s') && Evolves(s, s') && Bounded(s)
    requires Contiguous(Union(s), base, tip) && Contiguous(Union(s'), base, tip') && base < tip
    requires 0 < limit < TWO_TO_THE_63
    ensures RunsDown(FinishLatestBlocks(Latest(s.cache, limit), s'.db, limit), Union(s'), lo, hi)
    ensures base <= lo <= hi < tip' && tip - 1 <= hi
  {
    assert base in Union(s) && tip - 1 in Union(s');
    assert tip - 1 in Union(s);
    NothingLatest(s, limit);
    if s.cache.Keys == {} {
      lo, hi := FromDbAlone(s', base, tip', limit);
    } else {
      CacheIsUpperEnd(s, base, tip);
      assert Lowest(s.cache) in Union(s);
      SameInUnion(s, s', base, tip, tip');
      lo, hi := SnapshotOnUpperEnd(s, s', base, tip, limit);
    }
  }

  lemma SnapshotOnUpperEnd(s: Store, s': Store, base: nat, tip: nat, limit: nat) returns (lo: nat, hi: nat)
    requires s.cache.Keys != {} && Contiguous(s.cache, Lowest(s.cache), tip) && Evolves(s, s')
    requires base <= Lowest(s.cache) && 1 <= Lowest(s.cache) < TWO_TO_THE_53
    requires 0 < limit < TWO_TO_THE_63
    requires forall h :: base <= h < Lowest(s.cache) ==> h in Union(s') && h in s'.db && s'.db[h] == Union(s')[h]
    requires forall h :: h in s'.db ==> base <= h
    ensures RunsDown(FinishLatestBlocks(Latest(s.cache, limit), s'.db, limit), Union(s'), lo, hi)
    ensures base <= lo <= hi == tip - 1
  {
    var cached := Latest(s.cache, limit);
    assert Lowest(s.cache) < tip;
    hi := tip - 1;
    if |cached| == limit {
      lo := FullyCachedRun(s, s', tip, limit);
    } else {
      LatestLength(s.cache, limit);
      PartlyCachedLatest(s, s', base, tip, limit);
      var answer := FinishLatestBlocks(cached, s'.db, limit);
      lo := RunStart(answer, Union(s'), base, Lowest(s.cache), tip, limit, limit - |cached|);
    }
  }

  lemma FullyCachedRun(s: Store, s': Store, tip: nat, limit: nat) returns (lo: nat)
    requires s.cache.Keys != {} && Contiguous(s.cache, Lowest(s.cache), tip) && Evolves(s, s')
    requires limit > 0 && |Latest(s.cache, limit)| == limit
    ensures RunsDown(FinishLatestBlocks(Latest(s.cache, limit), s'.db, limit), Union(s'), lo, tip - 1)
    ensures Lowest(s.cache) <= lo < tip
  {
    CachedPart(s, tip, limit);
    lo := CachedFrom(s, tip, limit);
    RunKept(Latest(s.cache, limit), s, s', lo, tip - 1);
  }

  lemma RunStart(r: seq<Block>, t: Table, base: nat, m: nat, tip: nat, limit: nat, more: nat) returns (lo: nat)
    requires base <= m < tip && limit > 0 && more == limit - (tip - m) && PartialRun(r, t, base, m, tip, limit, more)
    ensures RunsDown(r, t, lo, tip - 1) && base <= lo < tip
  {
    lo := if m < more || m == base then m else if base + limit >= tip then base else tip - limit;
  }

  lemma FromDbAlone(s: Store, base: nat, tip: nat, limit: nat) returns (lo: nat, hi: nat)
    requires Inv(s) && Contiguous(Union(s), base, tip) && base in s.db && limit > 0
    ensures RunsDown(Latest(s.db, limit), Union(s), lo, hi)
    ensures base <= lo <= hi < tip && hi == Highest(s.db)
  {
    DbIsLowerEnd(s, base, tip);
    var top := Highest(s.db) + 1;
    LatestRun(s.db, base, top, limit);
    lo, hi := if base + limit >= top then base else top - limit, top - 1;
    assert top - 1 in Union(s);
    DbRunInUnion(Latest(s.db, limit), s, lo, hi);
  }

  lemma DbRunInUnion(r: seq<Block>, s: Store, lo: nat, hi: nat)
    requires Agree(s) && RunsDown(r, s.db, lo, hi)
    ensures RunsDown(r, Union(s), lo, hi)
  {
    assert forall h :: h in s.db ==> h in Union(s) && Union(s)[h] == s.db[h];
  }

  lemma DbIsLowerEnd(s: Store, base: nat, tip: nat)
    requires Inv(s) && Contiguous(Union(s), base, tip) && base in s.db
    ensures Contiguous(s.db, base, Highest(s.db) + 1)
  {
    var top := Highest(s.db);
    assert top in Union(s);
    forall h | base <= h <= top ensures h in s.db {
      assert h in Union(s);
    }
    forall h | h in s.db ensures base <= h <= top {
      assert h in Union(s);
    }
  }

  /** GetLatestBlock is the latest block of the union. */
  lemma GetLatestBlockExact(s: Store)
    requires Inv(s)
    ensures GetLatestBlock(s) == Latest(Union(s), 1)
  {
    if s.cache.Keys == {} {
      assert Union(s) == s.db;
    } else {
      LatestOne(s.cache);
      assert Highest(s.cache) in Union(s);
      LatestOne(Union(s));
    }
  }

  lemma LatestOne(t: Table)
    requires t.Keys != {}
    ensures Latest(t, 1) == [Block(Highest(t), t[Highest(t)])]
  {
    assert Latest(t - {Highest(t)}, 0) == [];
  }
}
