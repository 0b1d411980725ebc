/**
 Blocks, the tables they are stored in (one document for each height), and the queries
 that every block store answers: a range, the n latest, the n earliest.
 */
module BlockTables {

  type Data = string

  datatype Block = Block(height: nat, data: Data)

  type Table = map<nat, Data>

  // ----- Sequences of blocks -----

  ghost predicate Ascending(bs: seq<Block>) {
    forall i, j :: 0 <= i < j < |bs| ==> bs[i].height < bs[j].height
  }

  ghost predicate Descending(bs: seq<Block>) {
    forall i, j :: 0 <= i < j < |bs| ==> bs[i].height > bs[j].height
  }

  function Reverse(bs: seq<Block>): (r: seq<Block>)
    ensures |r| == |bs| && forall i :: 0 <= i < |bs| ==> r[i] == bs[|bs| - 1 - i]
    ensures forall b :: b in r <==> b in bs
  {
    if bs == [] then [] else Reverse(bs[1..]) + [bs[0]]
  }

  function Heights(bs: seq<Block>): (hs: set<nat>)
    ensures forall b :: b in bs ==> b.height in hs
    ensures forall h :: h in hs ==> exists b :: b in bs && b.height == h
  {
    set i | 0 <= i < |bs| :: bs[i].height
  }

  /** Every block of the sequence is the document that the table holds for its height. */
  ghost predicate Within(bs: seq<Block>, t: Table) {
    forall b :: b in bs ==> b.height in t && t[b.height] == b.data
  }

  lemma TailMembers(bs: seq<Block>)
    requires bs != []
    ensures forall b :: b in bs <==> b == bs[0] || b in bs[1..]
  {
  }

  lemma AscendingTail(bs: seq<Block>)
    requires bs != [] && Ascending(bs)
    ensures Ascending(bs[1..]) && forall b :: b in bs[1..] ==> bs[0].height < b.height
  {
    forall b | b in bs[1..] ensures bs[0].height < b.height {
      var i :| 0 <= i < |bs[1..]| && bs[1..][i] == b;
      assert bs[i + 1] == b;
    }
  }

  lemma DescendingTail(bs: seq<Block>)
    requires bs != [] && Descending(bs)
    ensures Descending(bs[1..]) && forall b :: b in bs[1..] ==> bs[0].height > b.height
  {
    forall b | b in bs[1..] ensures bs[0].height > b.height {
      var i :| 0 <= i < |bs[1..]| && bs[1..][i] == b;
      assert bs[i + 1] == b;
    }
  }

  lemma HeightsCons(b: Block, bs: seq<Block>)
    ensures Heights([b] + bs) == Heights(bs) + {b.height}
  {
    var all := [b] + bs;
    assert forall i :: 0 <= i < |bs| ==> all[i + 1] == bs[i];
    forall h ensures h in Heights(all) <==> h in Heights(bs) + {b.height} {
      if h in Heights(bs) {
        var i :| 0 <= i < |bs| && bs[i].height == h;
        assert all[i + 1].height == h;
      }
      assert all[0].height == b.height;
    }
  }

  lemma DescendingCons(b: Block, bs: seq<Block>)
    requires Descending(bs) && forall x :: x in bs ==> b.height > x.height
    ensures Descending([b] + bs)
  {
  }

  lemma AscendingCons(b: Block, bs: seq<Block>)
    requires Ascending(bs) && forall x :: x in bs ==> b.height < x.height
    ensures Ascending([b] + bs)
  {
  }

  lemma SameHead(a: seq<Block>, b: seq<Block>)
    requires Ascending(a) && Ascending(b) && a != []
    requires forall x :: x in a <==> x in b
    ensures b != [] && a[0] == b[0]
    ensures forall x :: x in a[1..] <==> x in b[1..]
  {
    assert a[0] in b;
    assert b[0] in a;
    AscendingTail(a);
    AscendingTail(b);
    TailMembers(a);
    TailMembers(b);
  }

  /** An ascending sequence is determined by its elements. */
  lemma {:induction false} AscendingUnique(a: seq<Block>, b: seq<Block>)
    requires Ascending(a) && Ascending(b)
    requires forall x :: x in a <==> x in b
    ensures a == b
  {
    assert b != [] ==> b[0] in b;
    if a != [] {
      SameHead(a, b);
      AscendingTail(a);
      AscendingTail(b);
      AscendingUnique(a[1..], b[1..]);
      assert a == [a[0]] + a[1..] && b == [b[0]] + b[1..];
    }
  }

  lemma DescendingUnique(a: seq<Block>, b: seq<Block>)
    requires Descending(a) && Descending(b)
    requires forall x :: x in a <==> x in b
    ensures a == b
  {
    AscendingUnique(Reverse(a), Reverse(b));
    forall i | 0 <= i < |a| ensures a[i] == b[i] {
      assert Reverse(a)[|a| - 1 - i] == Reverse(b)[|a| - 1 - i];
    }
  }

  // ----- Changing a table -----

  /** Stores the blocks whose height is not there yet. */
  function InsertIfAbsent(t: Table, bs: seq<Block>): Table
    decreases |bs|
  {
    if bs == [] then t
    else InsertIfAbsent(if bs[0].height in t then t else t[bs[0].height := bs[0].data], bs[1..])
  }

  function Remove(t: Table, bs: seq<Block>): Table {
    t - Heights(bs)
  }

  /** There is one document for each height: the blocks agree with the table and with each other. */
  ghost predicate Consistent(t: Table, bs: seq<Block>) {
    && (forall b :: b in bs && b.height in t ==> t[b.height] == b.data)
    && (forall b, b' :: b in bs && b' in bs && b.height == b'.height ==> b == b')
  }

  lemma {:induction false} InsertIfAbsentExact(t: Table, bs: seq<Block>)
    requires Consistent(t, bs)
    ensures InsertIfAbsent(t, bs).Keys == t.Keys + Heights(bs)
    ensures forall h :: h in t ==> InsertIfAbsent(t, bs)[h] == t[h]
    ensures Within(bs, InsertIfAbsent(t, bs))
    decreases |bs|
  {
    if bs != [] {
      var t' := if bs[0].height in t then t else t[bs[0].height := bs[0].data];
      TailMembers(bs);
      HeightsCons(bs[0], bs[1..]);
      assert bs == [bs[0]] + bs[1..];
      InsertIfAbsentExact(t', bs[1..]);
    }
  }

  // ----- Queries -----

  /** The stored blocks with lo <= height <= hi, in ascending order. */
  function Range(t: Table, lo: nat, hi: nat): seq<Block>
    decreases hi + 1 - lo
  {
    if lo > hi then []
    else (if lo in t then [Block(lo, t[lo])] else []) + Range(t, lo + 1, hi)
  }

  lemma {:induction false} RangeMember(t: Table, lo: nat, hi: nat, b: Block)
    ensures b in Range(t, lo, hi) <==> lo <= b.height <= hi && b.height in t && t[b.height] == b.data
    decreases hi + 1 - lo
  {
    if lo <= hi {
      RangeMember(t, lo + 1, hi, b);
    }
  }

  lemma {:induction false} RangeAscending(t: Table, lo: nat, hi: nat)
    ensures Ascending(Range(t, lo, hi))
    decreases hi + 1 - lo
  {
    if lo <= hi {
      var rest := Range(t, lo + 1, hi);
      RangeAscending(t, lo + 1, hi);
      if lo in t {
        forall b | b in rest ensures lo < b.height {
          RangeMember(t, lo + 1, hi, b);
        }
        AscendingCons(Block(lo, t[lo]), rest);
      }
    }
  }

  /** A range query returns exactly the stored blocks of the range, in ascending order. */
  lemma RangeExact(t: Table, lo: nat, hi: nat)
    ensures Ascending(Range(t, lo, hi))
    ensures forall b :: b in Range(t, lo, hi) <==> lo <= b.height <= hi && b.height in t && t[b.height] == b.data
  {
    RangeAscending(t, lo, hi);
    forall b ensures b in Range(t, lo, hi) <==> lo <= b.height <= hi && b.height in t && t[b.height] == b.data {
      RangeMember(t, lo, hi, b);
    }
  }

  lemma {:induction false} RangeLength(t: Table, lo: nat, hi: nat)
    ensures |Range(t, lo, hi)| <= if lo > hi then 0 else hi - lo + 1
    ensures lo <= hi ==> (|Range(t, lo, hi)| == hi - lo + 1 <==> forall h :: lo <= h <= hi ==> h in t)
    decreases hi + 1 - lo
  {
    if lo <= hi {
      RangeLength(t, lo + 1, hi);
    }
  }

  lemma {:induction false} RangeSplit(t: Table, lo: nat, mid: nat, hi: nat)
    requires lo <= mid <= hi + 1
    ensures mid > 0 ==> Range(t, lo, hi) == Range(t, lo, mid - 1) + Range(t, mid, hi)
    decreases mid - lo
  {
    if lo < mid {
      RangeSplit(t, lo + 1, mid, hi);
    }
  }

  /** A range is what its blocks say it is: tables that agree inside the range answer alike. */
  lemma RangeAgree(t: Table, t': Table, lo: nat, hi: nat)
    requires forall h :: lo <= h <= hi ==> (h in t <==> h in t') && (h in t ==> t[h] == t'[h])
    ensures Range(t, lo, hi) == Range(t', lo, hi)
  {
    RangeExact(t, lo, hi);
    RangeExact(t', lo, hi);
    AscendingUnique(Range(t, lo, hi), Range(t', lo, hi));
  }

  ghost predicate IsHighest(s: set<nat>, h: nat) {
    h in s && forall k :: k in s ==> k <= h
  }

  ghost predicate IsLowest(s: set<nat>, l: nat) {
    l in s && forall k :: k in s ==> l <= k
  }

  lemma {:induction false} HasHighest(s: set<nat>) returns (h: nat)
    requires s != {}
    ensures IsHighest(s, h)
  {
    var x :| x in s;
    var rest := s - {x};
    h := x;
    if rest != {} {
      var top := HasHighest(rest);
      h := if x > top then x else top;
    }
    assert forall k :: k in s ==> k == x || k in rest;
  }

  lemma {:induction false} HasLowest(s: set<nat>) returns (l: nat)
    requires s != {}
    ensures IsLowest(s, l)
  {
    var x :| x in s;
    var rest := s - {x};
    l := x;
    if rest != {} {
      var bottom := HasLowest(rest);
      l := if x < bottom then x else bottom;
    }
    assert forall k :: k in s ==> k == x || k in rest;
  }

  ghost function Highest(t: Table): (h: nat)
    requires t.Keys != {}
    ensures h in t && forall k :: k in t ==> k <= h
  {
    assert exists h :: IsHighest(t.Keys, h) by {
      var h := HasHighest(t.Keys);
    }
    var h :| IsHighest(t.Keys, h);
    h
  }

  ghost function Lowest(t: Table): (l: nat)
    requires t.Keys != {}
    ensures l in t && forall k :: k in t ==> l <= k
  {
    assert exists l :: IsLowest(t.Keys, l) by {
      var l := HasLowest(t.Keys);
    }
    var l :| IsLowest(t.Keys, l);
    l
  }

  /** The n stored blocks with the largest heights, or all of them, in descending order. */
  ghost function Latest(t: Table, n: nat): seq<Block>
    decreases n
  {
    if n == 0 || t.Keys == {} then []
    else var h := Highest(t); [Block(h, t[h])] + Latest(t - {h}, n - 1)
  }

  /** The n stored blocks with the smallest heights, or all of them, in ascending order. */
  ghost function Earliest(t: Table, n: nat): seq<Block>
    decreases n
  {
    if n == 0 || t.Keys == {} then []
    else var l := Lowest(t); [Block(l, t[l])] + Earliest(t - {l}, n - 1)
  }

  lemma {:induction false} LatestShape(t: Table, n: nat)
    ensures Descending(Latest(t, n)) && Within(Latest(t, n), t)
    decreases n
  {
    if n > 0 && t.Keys != {} {
      var h := Highest(t);
      LatestShape(t - {h}, n - 1);
      DescendingCons(Block(h, t[h]), Latest(t - {h}, n - 1));
    }
  }

  lemma {:induction false} LatestLength(t: Table, n: nat)
    ensures |Latest(t, n)| == if n < |t.Keys| then n else |t.Keys|
    decreases n
  {
    if n > 0 && t.Keys != {} {
      var h := Highest(t);
      assert (t - {h}).Keys == t.Keys - {h};
      LatestLength(t - {h}, n - 1);
    }
  }

  /** What is stored and not returned lies beyond everything that is returned. */
  lemma {:induction false} LatestExtreme(t: Table, n: nat, h: nat)
    requires h in t && h !in Heights(Latest(t, n))
    ensures forall b :: b in Latest(t, n) ==> h < b.height
    decreases n
  {
    if n > 0 {
      var k := Highest(t);
      var rest := Latest(t - {k}, n - 1);
      HeightsCons(Block(k, t[k]), rest);
      LatestExtreme(t - {k}, n - 1, h);
      assert forall b :: b in Latest(t, n) <==> b == Block(k, t[k]) || b in rest;
    }
  }

  lemma {:induction false} EarliestShape(t: Table, n: nat)
    ensures Ascending(Earliest(t, n)) && Within(Earliest(t, n), t)
    decreases n
  {
    if n > 0 && t.Keys != {} {
      var h := Lowest(t);
      EarliestShape(t - {h}, n - 1);
      AscendingCons(Block(h, t[h]), Earliest(t - {h}, n - 1));
    }
  }

  lemma {:induction false} EarliestLength(t: Table, n: nat)
    ensures |Earliest(t, n)| == if n < |t.Keys| then n else |t.Keys|
    decreases n
  {
    if n > 0 && t.Keys != {} {
      var h := Lowest(t);
      assert (t - {h}).Keys == t.Keys - {h};
      EarliestLength(t - {h}, n - 1);
    }
  }

  /** What is stored and not returned lies beyond everything that is returned. */
  lemma {:induction false} EarliestExtreme(t: Table, n: nat, h: nat)
    requires h in t && h !in Heights(Earliest(t, n))
    ensures forall b :: b in Earliest(t, n) ==> h > b.height
    decreases n
  {
    if n > 0 {
      var k := Lowest(t);
      var rest := Earliest(t - {k}, n - 1);
      HeightsCons(Block(k, t[k]), rest);
      EarliestExtreme(t - {k}, n - 1, h);
      assert forall b :: b in Earliest(t, n) <==> b == Block(k, t[k]) || b in rest;
    }
  }

  // ----- Sorting -----

  function InsertDescending(bs: seq<Block>, b: Block): seq<Block> {
    if bs == [] || bs[0].height <= b.height then [b] + bs else [bs[0]] + InsertDescending(bs[1..], b)
  }

  /** slices.SortFunc with the comparison of heights reversed. */
  function SortDescending(bs: seq<Block>): seq<Block> {
    if bs == [] then [] else InsertDescending(SortDescending(bs[1..]), bs[0])
  }

  lemma {:induction false} InsertDescendingExact(bs: seq<Block>, b: Block)
    requires Descending(bs) && b.height !in Heights(bs)
    ensures Descending(InsertDescending(bs, b))
    ensures forall x :: x in InsertDescending(bs, b) <==> x in bs || x == b
  {
    if bs != [] {
      TailMembers(bs);
      DescendingTail(bs);
      HeightsCons(bs[0], bs[1..]);
      assert bs == [bs[0]] + bs[1..];
      if bs[0].height > b.height {
        InsertDescendingExact(bs[1..], b);
        DescendingCons(bs[0], InsertDescending(bs[1..], b));
      } else {
        DescendingCons(b, bs);
      }
    }
  }

  /** The sorted sequence has the same blocks, from the largest height down. */
  lemma {:induction false} SortDescendingExact(bs: seq<Block>)
    requires forall i, j :: 0 <= i < j < |bs| ==> bs[i].height != bs[j].height
    ensures Descending(SortDescending(bs))
    ensures forall x :: x in SortDescending(bs) <==> x in bs
  {
    if bs != [] {
      TailMembers(bs);
      SortDescendingExact(bs[1..]);
      InsertDescendingExact(SortDescending(bs[1..]), bs[0]);
    }
  }
}
