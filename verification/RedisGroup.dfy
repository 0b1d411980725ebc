/**
 A Redis stream with one consumer group: the messages that have not been deleted, the next
 message id, the group's last-delivered position and its pending-entries list.
 Stream ids are numbered from 1 in the order of the XADD calls; 0 stands for the id "0-0".
 */
module RedisGroup {

  type Consumer = nat

  datatype Msg<+T> = Msg(id: nat, data: T)

  datatype Delivery = Delivery(owner: Consumer, count: nat)

  datatype Group<+T> = Group(
    entries: seq<Msg<T>>,
    nextId: nat,
    lastDelivered: nat,
    pel: map<nat, Delivery>)

  /** XGROUP CREATE ... MKSTREAM at "0-0" on a stream that does not exist yet. */
  function Empty<T(!new)>(): (g: Group<T>)
    ensures Valid(g)
  {
    Group([], 1, 0, map[])
  }

  ghost predicate Increasing<T(!new)>(s: seq<Msg<T>>) {
    forall i, j :: 0 <= i < j < |s| ==> s[i].id < s[j].id
  }

  function IdsOf<T(!new)>(s: seq<Msg<T>>): (ids: set<nat>)
    ensures forall m :: m in s ==> m.id in ids
    ensures forall id :: id in ids ==> exists m :: m in s && m.id == id
  {
    set i | 0 <= i < |s| :: s[i].id
  }

  /** Ids grow along the stream, and the pending entries are exactly the delivered messages that still exist. */
  ghost predicate Valid<T(!new)>(g: Group<T>) {
    && Increasing(g.entries)
    && (forall m :: m in g.entries ==> 0 < m.id < g.nextId)
    && g.lastDelivered < g.nextId
    && (forall id :: id in g.pel <==> id in IdsOf(g.entries) && id <= g.lastDelivered)
  }

  /** The messages past a position (the ">" id of XREADGROUP when the position is the last-delivered one). */
  function After<T(!new)>(s: seq<Msg<T>>, pos: nat): seq<Msg<T>> {
    if s == [] then [] else if s[0].id > pos then s else After(s[1..], pos)
  }

  /** The messages past a cursor that are pending for one consumer (XREADGROUP with an explicit id). */
  function Owned<T(!new)>(s: seq<Msg<T>>, pel: map<nat, Delivery>, c: Consumer, cursor: nat): seq<Msg<T>> {
    if s == [] then []
    else
      (if s[0].id > cursor && s[0].id in pel && pel[s[0].id].owner == c then [s[0]] else [])
      + Owned(s[1..], pel, c, cursor)
  }

  function Without<T(!new)>(s: seq<Msg<T>>, ids: set<nat>): seq<Msg<T>> {
    if s == [] then []
    else (if s[0].id in ids then [] else [s[0]]) + Without(s[1..], ids)
  }

  function Take<T(!new)>(s: seq<T>, n: nat): seq<T> {
    if n < |s| then s[..n] else s
  }

  function XAdd<T(!new)>(g: Group<T>, data: T): Group<T> {
    g.(entries := g.entries + [Msg(g.nextId, data)], nextId := g.nextId + 1)
  }

  function XAddAll<T(!new)>(g: Group<T>, data: seq<T>): Group<T>
    decreases |data|
  {
    if data == [] then g else XAddAll(XAdd(g, data[0]), data[1..])
  }

  function NewBatch<T(!new)>(g: Group<T>, n: nat): seq<Msg<T>> {
    Take(After(g.entries, g.lastDelivered), n)
  }

  /** XREADGROUP with ">": the batch enters the pending list of its reader with delivery count 1. */
  function ReadNew<T(!new)>(g: Group<T>, c: Consumer, n: nat): Group<T> {
    var batch := NewBatch(g, n);
    if batch == [] then g
    else g.(lastDelivered := batch[|batch| - 1].id, pel := Delivered(g.pel, IdsOf(batch), c))
  }

  function Delivered(pel: map<nat, Delivery>, ids: set<nat>, c: Consumer): (r: map<nat, Delivery>)
    ensures r.Keys == pel.Keys + ids
    ensures forall id :: id in ids ==> r[id] == Delivery(c, 1)
    ensures forall id :: id in pel && id !in ids ==> r[id] == pel[id]
  {
    pel + map id | id in ids :: Delivery(c, 1)
  }

  function BacklogBatch<T(!new)>(g: Group<T>, c: Consumer, cursor: nat, n: nat): seq<Msg<T>> {
    Take(Owned(g.entries, g.pel, c, cursor), n)
  }

  /** XREADGROUP with an explicit id: every returned entry has its delivery count raised. */
  function ReadBacklog<T(!new)>(g: Group<T>, c: Consumer, cursor: nat, n: nat): Group<T> {
    var ids := IdsOf(BacklogBatch(g, c, cursor, n));
    g.(pel := map id | id in g.pel ::
                if id in ids then g.pel[id].(count := g.pel[id].count + 1) else g.pel[id])
  }

  /** XACK followed by XDEL. As in Redis, neither checks who owns the entry. */
  function AckDel<T(!new)>(g: Group<T>, ids: set<nat>): Group<T> {
    g.(entries := Without(g.entries, ids), pel := g.pel - ids)
  }

  lemma HeadIsLeast<T(!new)>(s: seq<Msg<T>>)
    requires s != [] && Increasing(s)
    ensures Increasing(s[1..])
    ensures forall m :: m in s[1..] ==> s[0].id < m.id
  {
    forall m | m in s[1..] ensures s[0].id < m.id {
      var i :| 0 <= i < |s[1..]| && s[1..][i] == m;
      assert s[i + 1] == m;
    }
  }

  lemma {:induction false} WithoutMembers<T(!new)>(s: seq<Msg<T>>, ids: set<nat>)
    ensures forall m :: m in Without(s, ids) <==> m in s && m.id !in ids
    ensures Increasing(s) ==> Increasing(Without(s, ids))
  {
    if s != [] {
      WithoutMembers(s[1..], ids);
      var t := Without(s[1..], ids);
      assert forall m :: m in s <==> m == s[0] || m in s[1..];
      if Increasing(s) {
        HeadIsLeast(s);
      }
    }
  }

  lemma {:induction false} WithoutNothing<T(!new)>(s: seq<Msg<T>>, ids: set<nat>)
    requires forall m :: m in s ==> m.id !in ids
    ensures Without(s, ids) == s
  {
    if s != [] {
      WithoutNothing(s[1..], ids);
      assert s == [s[0]] + s[1..];
    }
  }

  lemma {:induction false} OwnedMember<T(!new)>(s: seq<Msg<T>>, pel: map<nat, Delivery>, c: Consumer, cursor: nat, m: Msg<T>)
    ensures m in Owned(s, pel, c, cursor)
            <==> m in s && m.id > cursor && m.id in pel && pel[m.id].owner == c
  {
    if s != [] {
      OwnedMember(s[1..], pel, c, cursor, m);
      assert m in s <==> m == s[0] || m in s[1..];
    }
  }

  lemma {:induction false} OwnedIncreasing<T(!new)>(s: seq<Msg<T>>, pel: map<nat, Delivery>, c: Consumer, cursor: nat)
    requires Increasing(s)
    ensures Increasing(Owned(s, pel, c, cursor))
  {
    if s != [] {
      HeadIsLeast(s);
      OwnedIncreasing(s[1..], pel, c, cursor);
      forall m | m in Owned(s[1..], pel, c, cursor) ensures s[0].id < m.id {
        OwnedMember(s[1..], pel, c, cursor, m);
      }
    }
  }

  lemma OwnedMembers<T(!new)>(s: seq<Msg<T>>, pel: map<nat, Delivery>, c: Consumer, cursor: nat)
    ensures forall m :: m in Owned(s, pel, c, cursor)
                        <==> m in s && m.id > cursor && m.id in pel && pel[m.id].owner == c
    ensures Increasing(s) ==> Increasing(Owned(s, pel, c, cursor))
  {
    forall m
      ensures m in Owned(s, pel, c, cursor) <==> m in s && m.id > cursor && m.id in pel && pel[m.id].owner == c
    {
      OwnedMember(s, pel, c, cursor, m);
    }
    if Increasing(s) {
      OwnedIncreasing(s, pel, c, cursor);
    }
  }

  lemma {:induction false} AfterMembers<T(!new)>(s: seq<Msg<T>>, pos: nat)
    requires Increasing(s)
    ensures Increasing(After(s, pos))
    ensures forall m :: m in After(s, pos) <==> m in s && m.id > pos
  {
    if s != [] {
      HeadIsLeast(s);
      assert forall m :: m in s <==> m == s[0] || m in s[1..];
      if s[0].id <= pos {
        AfterMembers(s[1..], pos);
      }
    }
  }

  lemma {:induction false} XAddAllAppends<T(!new)>(g: Group<T>, data: seq<T>)
    ensures var r := XAddAll(g, data);
            && r.nextId == g.nextId + |data|
            && r.lastDelivered == g.lastDelivered
            && r.pel == g.pel
            && r.entries == g.entries + seq(|data|, i requires 0 <= i < |data| => Msg(g.nextId + i, data[i]))
    decreases |data|
  {
    if data != [] {
      XAddAllAppends(XAdd(g, data[0]), data[1..]);
    }
  }

  lemma {:induction false} XAddAllConcat<T(!new)>(g: Group<T>, a: seq<T>, b: seq<T>)
    ensures XAddAll(g, a + b) == XAddAll(XAddAll(g, a), b)
    decreases |a|
  {
    if a == [] {
      assert a + b == b;
    } else {
      XAddAllConcat(XAdd(g, a[0]), a[1..], b);
      assert (a + b)[1..] == a[1..] + b;
    }
  }

  lemma XAddValid<T(!new)>(g: Group<T>, data: T)
    requires Valid(g)
    ensures Valid(XAdd(g, data))
  {
    var r := XAdd(g, data);
    assert forall m :: m in r.entries <==> m in g.entries || m == Msg(g.nextId, data);
    forall id ensures id in r.pel <==> id in IdsOf(r.entries) && id <= r.lastDelivered {
      if id in IdsOf(g.entries) {
        var m :| m in g.entries && m.id == id;
        assert m in r.entries;
      }
    }
  }

  lemma {:induction false} XAddAllValid<T(!new)>(g: Group<T>, data: seq<T>)
    requires Valid(g)
    ensures Valid(XAddAll(g, data))
    decreases |data|
  {
    if data != [] {
      XAddValid(g, data[0]);
      XAddAllValid(XAdd(g, data[0]), data[1..]);
    }
  }

  lemma AckDelValid<T(!new)>(g: Group<T>, ids: set<nat>)
    requires Valid(g)
    ensures Valid(AckDel(g, ids))
    ensures forall m :: m in AckDel(g, ids).entries <==> m in g.entries && m.id !in ids
  {
    WithoutMembers(g.entries, ids);
    var r := AckDel(g, ids);
    forall id ensures id in r.pel <==> id in IdsOf(r.entries) && id <= r.lastDelivered {
      if id in IdsOf(g.entries) && id !in ids {
        var m :| m in g.entries && m.id == id;
        assert m in r.entries;
      }
    }
  }

  /** Taking the front of an increasing sequence keeps exactly what is not past its last element. */
  lemma TakeFront<T(!new)>(s: seq<Msg<T>>, n: nat)
    requires Increasing(s) && n > 0
    ensures var b := Take(s, n);
            && |b| <= n && Increasing(b)
            && (|b| < n ==> b == s)
            && (b == [] <==> s == [])
            && (forall m :: m in b ==> m in s)
            && (b != [] ==> forall m :: m in s ==> (m in b <==> m.id <= b[|b| - 1].id))
  {
    var b := Take(s, n);
    if b != [] {
      forall m | m in s ensures m in b <==> m.id <= b[|b| - 1].id {
        var i :| 0 <= i < |s| && s[i] == m;
        if i < |b| {
          assert b[i] == m;
        }
      }
    }
  }

  /** Where a read of new messages stops. */
  ghost function Reached<T(!new)>(g: Group<T>, n: nat): nat {
    var batch := NewBatch(g, n);
    if batch == [] then g.lastDelivered else batch[|batch| - 1].id
  }

  /** A read of new messages returns the oldest undelivered ones, in order, and as many as it may. */
  lemma NewBatchExact<T(!new)>(g: Group<T>, n: nat)
    requires Valid(g) && n > 0
    ensures var batch := NewBatch(g, n);
            && |batch| <= n && Increasing(batch)
            && g.lastDelivered <= Reached(g, n) < g.nextId
            && (forall m :: m in batch <==> m in g.entries && g.lastDelivered < m.id <= Reached(g, n))
            && (|batch| < n ==> forall m :: m in g.entries ==> m.id <= g.lastDelivered || m in batch)
            && (batch == [] ==> forall m :: m in g.entries ==> m.id <= g.lastDelivered)
  {
    var rest := After(g.entries, g.lastDelivered);
    AfterMembers(g.entries, g.lastDelivered);
    TakeFront(rest, n);
    var batch := NewBatch(g, n);
    if batch != [] {
      assert batch[|batch| - 1] in rest;
    }
  }

  /** The ids of a batch of new messages: those between the last-delivered position and where the read stops. */
  lemma NewIds<T(!new)>(g: Group<T>, n: nat, id: nat)
    requires Valid(g) && n > 0
    ensures id in IdsOf(NewBatch(g, n)) <==> id in IdsOf(g.entries) && g.lastDelivered < id <= Reached(g, n)
    ensures g.lastDelivered <= Reached(g, n) < g.nextId
  {
    NewBatchExact(g, n);
    if id in IdsOf(g.entries) && g.lastDelivered < id <= Reached(g, n) {
      var m :| m in g.entries && m.id == id;
      assert m in NewBatch(g, n);
    }
    if id in IdsOf(NewBatch(g, n)) {
      var m :| m in NewBatch(g, n) && m.id == id;
      assert m in g.entries;
    }
  }

  lemma ReadNewFields<T(!new)>(g: Group<T>, c: Consumer, n: nat)
    ensures ReadNew(g, c, n)
            == g.(lastDelivered := Reached(g, n), pel := Delivered(g.pel, IdsOf(NewBatch(g, n)), c))
  {
    if NewBatch(g, n) == [] {
      assert Delivered(g.pel, IdsOf(NewBatch(g, n)), c) == g.pel;
    }
  }

  lemma NewIdsAreNotPending<T(!new)>(g: Group<T>, n: nat, id: nat)
    requires Valid(g) && n > 0 && id in IdsOf(NewBatch(g, n))
    ensures id !in g.pel
  {
    NewIds(g, n, id);
  }

  lemma ReadNewValid<T(!new)>(g: Group<T>, c: Consumer, n: nat)
    requires Valid(g) && n > 0
    ensures Valid(ReadNew(g, c, n))
  {
    ReadNewFields(g, c, n);
    NewIds(g, n, 0);
    forall id: nat ensures id in ReadNew(g, c, n).pel <==> id in IdsOf(g.entries) && id <= Reached(g, n) {
      NewIds(g, n, id);
    }
  }

  /** The batch becomes pending for its reader with count 1; nothing else changes. */
  lemma ReadNewExact<T(!new)>(g: Group<T>, c: Consumer, n: nat)
    requires Valid(g) && n > 0
    ensures Valid(ReadNew(g, c, n))
    ensures var r, ids := ReadNew(g, c, n), IdsOf(NewBatch(g, n));
            && r.entries == g.entries && r.nextId == g.nextId && r.lastDelivered == Reached(g, n)
            && r.pel.Keys == g.pel.Keys + ids && g.pel.Keys !! ids
            && (forall id :: id in ids ==> r.pel[id] == Delivery(c, 1))
            && (forall id :: id in g.pel ==> r.pel[id] == g.pel[id])
  {
    ReadNewValid(g, c, n);
    ReadNewFields(g, c, n);
    forall id | id in IdsOf(NewBatch(g, n)) ensures id !in g.pel {
      NewIdsAreNotPending(g, n, id);
    }
  }

  /** A backlog read returns the reader's own entries past the cursor, oldest first, and as many as it may. */
  lemma BacklogBatchExact<T(!new)>(g: Group<T>, c: Consumer, cursor: nat, n: nat)
    requires Valid(g) && n > 0
    ensures var batch := BacklogBatch(g, c, cursor, n);
            && |batch| <= n && Increasing(batch)
            && (forall m :: m in batch ==> m in g.entries && m.id > cursor && m.id in g.pel && g.pel[m.id].owner == c)
            && (forall id :: id in g.pel && g.pel[id].owner == c && id > cursor ==>
                  batch != [] && (id in IdsOf(batch) || (|batch| == n && batch[n - 1].id < id)))
  {
    var own := Owned(g.entries, g.pel, c, cursor);
    OwnedMembers(g.entries, g.pel, c, cursor);
    TakeFront(own, n);
    var batch := BacklogBatch(g, c, cursor, n);
    forall id | id in g.pel && g.pel[id].owner == c && id > cursor
      ensures batch != [] && (id in IdsOf(batch) || (|batch| == n && batch[n - 1].id < id))
    {
      var m :| m in g.entries && m.id == id;
      assert m in own;
    }
  }

  lemma ReadBacklogValid<T(!new)>(g: Group<T>, c: Consumer, cursor: nat, n: nat)
    requires Valid(g)
    ensures Valid(ReadBacklog(g, c, cursor, n))
  {
    assert ReadBacklog(g, c, cursor, n).pel.Keys == g.pel.Keys;
  }

  /** A backlog read raises the delivery count of what it returns by one, and changes nothing else. */
  lemma ReadBacklogExact<T(!new)>(g: Group<T>, c: Consumer, cursor: nat, n: nat)
    requires Valid(g) && n > 0
    ensures Valid(ReadBacklog(g, c, cursor, n))
    ensures var ids := IdsOf(BacklogBatch(g, c, cursor, n));
            var r := ReadBacklog(g, c, cursor, n);
            && r.entries == g.entries && r.nextId == g.nextId && r.lastDelivered == g.lastDelivered
            && r.pel.Keys == g.pel.Keys && ids <= g.pel.Keys
            && (forall id :: id in g.pel && id !in ids ==> r.pel[id] == g.pel[id])
            && (forall id :: id in ids ==> r.pel[id] == Delivery(c, g.pel[id].count + 1))
  {
    BacklogBatchExact(g, c, cursor, n);
    forall id | id in IdsOf(BacklogBatch(g, c, cursor, n))
      ensures id in g.pel && g.pel[id].owner == c
    {
      var m :| m in BacklogBatch(g, c, cursor, n) && m.id == id;
    }
  }
}
