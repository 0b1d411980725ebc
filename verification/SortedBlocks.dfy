/** Blocks kept in ascending order of height, as a Redis sorted set or a primary-key index keeps them. */
module SortedBlocks {
  import opened BlockTables

  /** The table that an ordered sequence of blocks stands for. */
  ghost function TableOf(z: seq<Block>): Table {
    if z == [] then map[] else TableOf(z[1..])[z[0].height := z[0].data]
  }

  /** Adds a block in its place unless its height is taken. */
  function InsertSorted(z: seq<Block>, b: Block): seq<Block> {
    if z == [] || z[0].height > b.height then [b] + z
    else if z[0].height == b.height then z
    else [z[0]] + InsertSorted(z[1..], b)
  }

  function Between(z: seq<Block>, lo: nat, hi: nat): seq<Block> {
    if z == [] then []
    else (if lo <= z[0].height <= hi then [z[0]] else []) + Between(z[1..], lo, hi)
  }

  function Except(z: seq<Block>, bs: seq<Block>): seq<Block> {
    if z == [] then [] else (if z[0] in bs then [] else [z[0]]) + Except(z[1..], bs)
  }

  /** ZRANGE with the positions 0 and n - 1. */
  function First(z: seq<Block>, n: nat): seq<Block> {
    if n < |z| then z[..n] else z
  }

  /** ZRANGE with the positions -n and -1. */
  function Last(z: seq<Block>, n: nat): seq<Block> {
    if n < |z| then z[|z| - n..] else z
  }

  lemma {:induction false} TableOfKeys(z: seq<Block>)
    ensures TableOf(z).Keys == Heights(z)
  {
    if z != [] {
      TableOfKeys(z[1..]);
      HeightsCons(z[0], z[1..]);
      assert z == [z[0]] + z[1..];
    }
  }

  lemma {:induction false} TableOfValue(z: seq<Block>, i: nat)
    requires Ascending(z) && i < |z|
    ensures z[i].height in TableOf(z) && TableOf(z)[z[i].height] == z[i].data
  {
    if i > 0 {
      AscendingTail(z);
      TableOfValue(z[1..], i - 1);
    }
  }

  /** The blocks of the sequence are exactly the documents of the table. */
  lemma TableOfExact(z: seq<Block>)
    requires Ascending(z)
    ensures forall b :: b in z <==> b.height in TableOf(z) && TableOf(z)[b.height] == b.data
    ensures TableOf(z).Keys == Heights(z)
  {
    TableOfKeys(z);
    forall b ensures b in z <==> b.height in TableOf(z) && TableOf(z)[b.height] == b.data {
      if b.height in TableOf(z) {
        var x :| x in z && x.height == b.height;
        var i :| 0 <= i < |z| && z[i] == x;
        TableOfValue(z, i);
        assert b in z ==> exists k :: 0 <= k < |z| && z[k] == b;
      }
    }
  }

  lemma {:induction false} InsertSortedMembers(z: seq<Block>, b: Block)
    requires Ascending(z)
    ensures Ascending(InsertSorted(z, b))
    ensures forall x :: x in InsertSorted(z, b) ==> x in z || x == b
  {
    if z != [] {
      AscendingTail(z);
      TailMembers(z);
      if z[0].height > b.height {
        AscendingCons(b, z);
      } else if z[0].height < b.height {
        InsertSortedMembers(z[1..], b);
        AscendingCons(z[0], InsertSorted(z[1..], b));
      }
    }
  }

  lemma {:induction false} NotBelowFirst(z: seq<Block>, h: nat)
    requires Ascending(z) && forall b :: b in z ==> b.height > h
    ensures h !in TableOf(z)
  {
    TableOfKeys(z);
  }

  lemma TableOfCons(b: Block, z: seq<Block>)
    ensures TableOf([b] + z) == TableOf(z)[b.height := b.data]
  {
    assert ([b] + z)[1..] == z;
  }

  lemma {:induction false} InsertSortedTable(z: seq<Block>, b: Block)
    requires Ascending(z)
    ensures TableOf(InsertSorted(z, b))
            == if b.height in TableOf(z) then TableOf(z) else TableOf(z)[b.height := b.data]
  {
    if z == [] {
    } else if z[0].height > b.height {
      AscendingTail(z);
      TailMembers(z);
      NotBelowFirst(z, b.height);
      TableOfCons(b, z);
    } else if z[0].height < b.height {
      AscendingTail(z);
      var t := InsertSorted(z[1..], b);
      InsertSortedTable(z[1..], b);
      TableOfCons(z[0], t);
    }
  }

  lemma {:induction false} BetweenExact(z: seq<Block>, lo: nat, hi: nat)
    requires Ascending(z)
    ensures Ascending(Between(z, lo, hi))
    ensures forall b :: b in Between(z, lo, hi) <==> b in z && lo <= b.height <= hi
  {
    if z != [] {
      AscendingTail(z);
      TailMembers(z);
      BetweenExact(z[1..], lo, hi);
      if lo <= z[0].height <= hi {
        AscendingCons(z[0], Between(z[1..], lo, hi));
      }
    }
  }

  lemma BetweenIsRange(z: seq<Block>, lo: nat, hi: nat)
    requires Ascending(z)
    ensures Between(z, lo, hi) == Range(TableOf(z), lo, hi)
  {
    BetweenExact(z, lo, hi);
    TableOfExact(z);
    RangeExact(TableOf(z), lo, hi);
    AscendingUnique(Between(z, lo, hi), Range(TableOf(z), lo, hi));
  }

  lemma {:induction false} ExceptExact(z: seq<Block>, bs: seq<Block>)
    requires Ascending(z)
    ensures Ascending(Except(z, bs))
    ensures forall b :: b in Except(z, bs) <==> b in z && b !in bs
  {
    if z != [] {
      AscendingTail(z);
      TailMembers(z);
      ExceptExact(z[1..], bs);
      if z[0] !in bs {
        AscendingCons(z[0], Except(z[1..], bs));
      }
    }
  }

  /** Removing members removes their heights, given that there is one document for each height. */
  lemma ExceptIsRemove(z: seq<Block>, bs: seq<Block>)
    requires Ascending(z) && Consistent(TableOf(z), bs)
    ensures TableOf(Except(z, bs)) == Remove(TableOf(z), bs)
  {
    ExceptExact(z, bs);
    TableOfExact(Except(z, bs));
    TableOfExact(z);
    WhatIsLeft(z, bs, TableOf(z), TableOf(Except(z, bs)));
  }

  lemma WhatIsLeft(z: seq<Block>, bs: seq<Block>, t: Table, t': Table)
    requires Consistent(t, bs)
    requires forall b :: b in z <==> b.height in t && t[b.height] == b.data
    requires forall b :: b in z && b !in bs <==> b.height in t' && t'[b.height] == b.data
    ensures t' == Remove(t, bs)
  {
    forall h: nat ensures LeftAt(bs, t, t', h) {
      ExceptAt(z, bs, t, t', h);
    }
    var left := Remove(t, bs);
    forall h: nat ensures h in t' <==> h in left {
      assert LeftAt(bs, t, t', h);
    }
    forall h | h in t' ensures t'[h] == left[h] {
      assert LeftAt(bs, t, t', h);
    }
  }

  /** What a removal does at one height. */
  ghost predicate LeftAt(bs: seq<Block>, t: Table, t': Table, h: nat) {
    (h in t' <==> h in t && h !in Heights(bs)) && (h in t' ==> h in t && t'[h] == t[h])
  }

  lemma ExceptAt(z: seq<Block>, bs: seq<Block>, t: Table, t': Table, h: nat)
    requires Consistent(t, bs)
    requires forall b :: b in z <==> b.height in t && t[b.height] == b.data
    requires forall b :: b in z && b !in bs <==> b.height in t' && t'[b.height] == b.data
    ensures LeftAt(bs, t, t', h)
  {
    if h in t' {
      assert Block(h, t'[h]) in z;
    }
    if h in t {
      assert Block(h, t[h]) in z;
    }
  }

  /** The first height is in the table and no height is below it; the last one is, and none is above it. */
  lemma Ends(z: seq<Block>, h: nat)
    requires Ascending(z) && h in TableOf(z)
    ensures z != [] && z[0].height <= h <= z[|z| - 1].height
  {
    TableOfKeys(z);
    var x :| x in z && x.height == h;
    var i :| 0 <= i < |z| && z[i] == x;
  }

  lemma RemoveLowest(z: seq<Block>)
    requires Ascending(z) && z != []
    ensures TableOf(z).Keys != {} && Lowest(TableOf(z)) == z[0].height
    ensures TableOf(z) - {z[0].height} == TableOf(z[1..])
  {
    AscendingTail(z);
    TableOfValue(z, 0);
    Ends(z, Lowest(TableOf(z)));
    if z[0].height in TableOf(z[1..]) {
      Ends(z[1..], z[0].height);
    }
  }

  lemma EarliestStep(t: Table, b: Block, n: nat)
    requires t.Keys != {} && Lowest(t) == b.height && t[b.height] == b.data && n > 0
    ensures Earliest(t, n) == [b] + Earliest(t - {b.height}, n - 1)
  {
  }

  lemma {:induction false} FirstIsEarliest(z: seq<Block>, n: nat)
    requires Ascending(z)
    ensures First(z, n) == Earliest(TableOf(z), n)
    decreases n
  {
    if z != [] && n > 0 {
      RemoveLowest(z);
      AscendingTail(z);
      FirstIsEarliest(z[1..], n - 1);
      EarliestStep(TableOf(z), z[0], n);
      FirstStep(z, n);
    }
  }

  lemma FirstStep(z: seq<Block>, n: nat)
    requires z != [] && n > 0
    ensures First(z, n) == [z[0]] + First(z[1..], n - 1)
  {
  }

  lemma {:induction false} TableOfFront(z: seq<Block>)
    requires Ascending(z) && z != []
    ensures Ascending(z[..|z| - 1])
    ensures TableOf(z) == TableOf(z[..|z| - 1])[z[|z| - 1].height := z[|z| - 1].data]
  {
    if |z| > 1 {
      var front, tail := z[..|z| - 1], z[1..];
      AscendingTail(z);
      TableOfFront(tail);
      assert front[1..] == tail[..|tail| - 1] && front[0] == z[0] && tail[|tail| - 1] == z[|z| - 1];
      Swapped(TableOf(front[1..]), z[0], z[|z| - 1]);
    }
  }

  lemma Swapped(t: Table, a: Block, b: Block)
    requires a.height != b.height
    ensures t[b.height := b.data][a.height := a.data] == t[a.height := a.data][b.height := b.data]
  {
  }

  lemma RemoveHighest(z: seq<Block>)
    requires Ascending(z) && z != []
    ensures var front, top := z[..|z| - 1], z[|z| - 1];
            && TableOf(z).Keys != {} && Highest(TableOf(z)) == top.height && TableOf(z)[top.height] == top.data
            && TableOf(z) - {top.height} == TableOf(front)
  {
    var front, top := z[..|z| - 1], z[|z| - 1];
    TableOfFront(z);
    TableOfValue(z, |z| - 1);
    Ends(z, Highest(TableOf(z)));
    if top.height in TableOf(front) {
      Ends(front, top.height);
    }
  }

  lemma LastStep(z: seq<Block>, n: nat)
    requires z != [] && n > 0
    ensures Reverse(Last(z, n)) == [z[|z| - 1]] + Reverse(Last(z[..|z| - 1], n - 1))
  {
    assert Last(z, n) == Last(z[..|z| - 1], n - 1) + [z[|z| - 1]];
    ReverseAppend(Last(z[..|z| - 1], n - 1), z[|z| - 1]);
  }

  lemma {:induction false} LastIsLatest(z: seq<Block>, n: nat)
    requires Ascending(z)
    ensures Reverse(Last(z, n)) == Latest(TableOf(z), n)
    decreases n
  {
    if z != [] {
      var front, top := z[..|z| - 1], z[|z| - 1];
      RemoveHighest(z);
      if n > 0 {
        LastIsLatest(front, n - 1);
        LastStep(z, n);
      }
    }
  }

  lemma ReverseAppend(bs: seq<Block>, b: Block)
    ensures Reverse(bs + [b]) == [b] + Reverse(bs)
  {
  }
}
