/**
 A run in which the router stores its batch a second time in the middle of a flush cycle. Two blocks drop out of the
 cache, a relay takes what is left for everything there is, and the webhook's job goes on behind them.
 */
module LostBlock {
  import opened Wrappers
  import opened PendingSet
  import opened BlockTables
  import opened Scheduler
  import C = CachedStore
  import D = SchedulerDelivery
  import F = FirstSendGap
  import G = RedisGroup
  import S = WebhookShard

  /** A run without any discipline. */
  ghost predicate Plays(steps: seq<Step>, s: System) {
    IsRun(Init(1), steps) && After(Init(1), steps) == s
  }

  lemma {:induction false} Extend(s: System, steps: seq<Step>, step: Step)
    requires IsRun(s, steps) && Enabled(After(s, steps), step)
    ensures IsRun(s, steps + [step]) && After(s, steps + [step]) == Do(After(s, steps), step)
    decreases |steps|
  {
    if steps == [] {
      assert [step][1..] == [];
    } else {
      Extend(Do(s, steps[0]), steps[1..], step);
      assert (steps + [step])[1..] == steps[1..] + [step];
    }
  }

  lemma Next(steps: seq<Step>, s: System, step: Step, r: System) returns (steps': seq<Step>)
    requires Plays(steps, s) && Enabled(s, step) && r == Do(s, step)
    ensures Plays(steps', r)
  {
    Extend(Init(1), steps, step);
    steps' := steps + [step];
  }

  /** One step of the flusher. */
  lemma FlusherMoves(steps: seq<Step>, s: System, step: C.StoreStep, store: C.Store) returns (steps': seq<Step>)
    requires Plays(steps, s) && !step.Put? && C.Enabled(s.store, step) && store == C.Do(s.store, step)
    ensures Plays(steps', s.(store := store))
  {
    steps' := Next(steps, s, FlusherStep(step), s.(store := store));
  }

  lemma RouterFlushes(steps: seq<Step>, s: System, shard: S.Shard) returns (steps': seq<Step>)
    requires Plays(steps, s) && s.router.phase.Stored? && s.router.next > 0
    requires shard == S.Flush(s.shard, s.router.next - 1)
    ensures Plays(steps', s.(shard := shard, router := s.router.(phase := Flushed)))
  {
    steps' := Next(steps, s, FlushShard, s.(shard := shard, router := s.router.(phase := Flushed)));
  }

  lemma RelayReadsCache(steps: seq<Step>, s: System, msg: G.Msg<Job>, row: Webhook, cached: seq<Block>)
    returns (steps': seq<Step>)
    requires Plays(steps, s) && s.locals == map[0 := Busy(msg, false, Reading(row))]
    requires cached == CachedBlocks(s.store, msg.data, row)
    ensures Plays(steps', s.(locals := map[0 := Busy(msg, false, HalfRead(row, cached, s.store, s.tip))]))
  {
    steps' := Next(steps, s, ReadCache(0), s.(locals := map[0 := Busy(msg, false, HalfRead(row, cached, s.store, s.tip))]));
  }

  lemma RelayReadsDb(steps: seq<Step>, s: System, msg: G.Msg<Job>, p: Phase, blocks: seq<Block>)
    returns (steps': seq<Step>)
    requires Plays(steps, s) && p.HalfRead? && s.locals == map[0 := Busy(msg, false, p)]
    requires blocks == BlocksToSend(p.cached, s.store.db, msg.data, p.row)
    ensures Plays(steps', s.(locals := map[0 := Busy(msg, false, Sending(blocks))]))
  {
    steps' := Next(steps, s, ReadDb(0), s.(locals := map[0 := Busy(msg, false, Sending(blocks))]));
  }

  lemma RelayReads(steps: seq<Step>, s: System, msg: G.Msg<Job>, row: Webhook, cached: seq<Block>, blocks: seq<Block>)
    returns (steps': seq<Step>)
    requires Plays(steps, s) && s.locals == map[0 := Busy(msg, false, Reading(row))]
    requires cached == CachedBlocks(s.store, msg.data, row) && blocks == BlocksToSend(cached, s.store.db, msg.data, row)
    ensures Plays(steps', s.(locals := map[0 := Busy(msg, false, Sending(blocks))]))
  {
    steps' := RelayReadsCache(steps, s, msg, row, cached);
    var p := HalfRead(row, cached, s.store, s.tip);
    steps' := RelayReadsDb(steps', s.(locals := map[0 := Busy(msg, false, p)]), msg, p, blocks);
  }

  lemma RelayFinishes(steps: seq<Step>, s: System, msg: G.Msg<Job>, blocks: seq<Block>, shard: S.Shard, history: History)
    returns (steps': seq<Step>)
    requires Plays(steps, s) && s.locals == map[0 := Busy(msg, false, Sent(blocks))] && blocks != []
    requires shard == S.Reschedule(s.shard, msg.id, NextJob(msg.data, blocks))
    requires history == if !msg.data.isNew then s.history
                        else s.history.(first := s.history.first[msg.data.id := blocks[|blocks| - 1].height])
    ensures Plays(steps', s.(shard := shard, locals := map[0 := Scanning(0)], history := history))
  {
    steps' := Next(steps, s, Finish(0), s.(shard := shard, locals := map[0 := Scanning(0)], history := history));
  }

  lemma RelayReadsNew(steps: seq<Step>, s: System, msg: G.Msg<Job>, group: G.Group<Job>) returns (steps': seq<Step>)
    requires Plays(steps, s) && s.locals == map[0 := AwaitingNew]
    requires G.NewBatch(s.shard.group, 1) == [msg] && G.ReadNew(s.shard.group, 0, 1) == group
    ensures Plays(steps', s.(shard := s.shard.(group := group), locals := map[0 := Busy(msg, false, Received)]))
  {
    steps' := Next(steps, s, ReadNew(0),
                   s.(shard := s.shard.(group := group), locals := map[0 := Busy(msg, false, Received)]));
  }

  // ----- The states of the run -----

  const ROW: Webhook := Webhook(4, 5)
  const JOB: Job := Job(0, 2, false)
  const MSG: G.Msg<Job> := G.Msg(2, JOB)

  /** What is the same in all states after the first request. */
  function Sys(shard: S.Shard, store: C.Store, router: Router, local: Local, tip: nat, history: History): System {
    System(shard, store, router, map[0 := ROW], map[0 := local], 1, tip, history)
  }

  /** Block 1 was sent and acknowledged. */
  function Begun(x: Data): History {
    F.Posted(F.NOTHING, [Block(1, x)]).(first := map[0 := 1])
  }

  function Batch(x: Data): seq<Block> {
    [Block(2, x), Block(3, x), Block(4, x)]
  }

  function Waiting(latest: nat): S.Shard {
    S.Shard(Some(latest), [Entry(2, JOB)], G.Group([], 2, 1, map[]), {0})
  }

  function InStream(latest: nat, delivered: bool): S.Shard {
    S.Shard(Some(latest), [],
            G.Group([MSG], 3, if delivered then 2 else 1, if delivered then map[2 := G.Delivery(0, 1)] else map[]), {0})
  }

  // ----- Block 1 is sent and the job goes on at height 2 -----

  lemma RescheduleFirst()
    ensures S.Reschedule(F.InStream(1, 1), 1, JOB) == Waiting(1)
  {
    assert G.Without([F.MSG], {1}) == G.Without([F.MSG][1..], {1}) == [];
    assert ZAdd([], 2, JOB) == [Entry(2, JOB)];
    assert map[1 := G.Delivery(0, 1)] - {1} == map[];
  }

  lemma FirstSent(x: Data) returns (steps: seq<Step>, s: System)
    ensures Plays(steps, s)
    ensures s == F.AtPhase(F.WithTip(x, F.InStream(1, 1), 2, map[0 := Scanning(0)], F.Posted(F.NOTHING, [Block(1, x)])),
                           false, Sent([Block(1, x)]))
  {
    steps, s := F.FirstRead(x);
    steps, s := F.Request(x, steps, s, false, 1);
    D.DisciplinedIsRun(Init(1), steps);
  }

  lemma FirstDone(x: Data) returns (steps: seq<Step>, s: System)
    ensures Plays(steps, s)
    ensures s == Sys(Waiting(1), C.Store(map[1 := x], map[], C.Idle), Router(2, [], RouterIdle), Scanning(0), 2, Begun(x))
  {
    steps, s := FirstSent(x);
    RescheduleFirst();
    assert NextJob(F.JOB, [Block(1, x)]) == JOB;
    steps := RelayFinishes(steps, s, F.MSG, [Block(1, x)], Waiting(1), Begun(x));
    var t := s.(shard := Waiting(1), locals := map[0 := Scanning(0)], history := Begun(x));
    s := t.(rows := map[0 := ROW]);
    steps := Next(steps, t, SetRow(0, ROW), s);
  }

  // ----- The store -----

  /** The cache with the document in it. */
  function With(t: Table, b: Block): Table {
    if b.height in t then t else t[b.height := b.data]
  }

  lemma InsertTwo(t: Table, a: Block, b: Block)
    ensures InsertIfAbsent(t, [a, b]) == With(With(t, a), b)
  {
    assert [a, b][1..] == [b];
    assert InsertIfAbsent(With(t, a), [b]) == With(With(t, a), b) by {
      assert [b][1..] == [];
    }
  }

  lemma InsertThree(t: Table, x: Data)
    ensures InsertIfAbsent(t, Batch(x)) == With(With(With(t, Block(2, x)), Block(3, x)), Block(4, x))
  {
    assert Batch(x)[1..] == [Block(3, x), Block(4, x)];
    InsertTwo(With(t, Block(2, x)), Block(3, x), Block(4, x));
  }

  lemma EarliestTwo(t: Table, l: nat, k: nat)
    requires l in t && k in t && l < k && forall h :: h in t ==> h == l || k <= h
    ensures Earliest(t, 2) == [Block(l, t[l]), Block(k, t[k])]
  {
    var rest := t - {l};
    assert Lowest(t) == l;
    assert k in rest && Lowest(rest) == k;
    assert Earliest(rest - {k}, 0) == [];
  }

  /** Blocks 2, 3 and 4 are stored, blocks 1 and 2 move to the database, and the flusher has read blocks 3 and 4. */
  lemma BatchStored(x: Data) returns (steps: seq<Step>, s: System)
    ensures Plays(steps, s)
    ensures s == Sys(Waiting(1), C.Store(map[1 := x, 2 := x, 3 := x, 4 := x], map[], C.Idle),
                     Router(5, Batch(x), Stored), Scanning(0), 5, Begun(x))
  {
    steps, s := FirstDone(x);
    var t := s.(router := Router(5, Batch(x), Taken));
    assert BlocksFrom(2, [x, x, x]) == Batch(x);
    steps := Next(steps, s, TakeBatch([x, x, x]), t);
    InsertThree(map[1 := x], x);
    s := t.(store := C.Store(map[1 := x, 2 := x, 3 := x, 4 := x], map[], C.Idle),
            router := Router(5, Batch(x), Stored), tip := 5);
    steps := Next(steps, t, StoreBatch, s);
  }

  lemma TwoMoved(x: Data) returns (steps: seq<Step>, s: System)
    ensures Plays(steps, s)
    ensures s == Sys(Waiting(1), C.Store(map[3 := x, 4 := x], map[1 := x, 2 := x], C.HasRead([Block(3, x), Block(4, x)])),
                     Router(5, Batch(x), Stored), Scanning(0), 5, Begun(x))
  {
    var t;
    steps, t := FirstCycle(x);
    EarliestTwo(t.store.cache, 3, 4);
    var store := t.store.(flusher := C.HasRead([Block(3, x), Block(4, x)]));
    steps := FlusherMoves(steps, t, C.Read(2), store);
    s := t.(store := store);
  }

  lemma FirstCycle(x: Data) returns (steps: seq<Step>, s: System)
    ensures Plays(steps, s)
    ensures s == Sys(Waiting(1), C.Store(map[3 := x, 4 := x], map[1 := x, 2 := x], C.Idle),
                     Router(5, Batch(x), Stored), Scanning(0), 5, Begun(x))
  {
    var t;
    steps, t := BatchStored(x);
    var all, two := t.store.cache, [Block(1, x), Block(2, x)];
    EarliestTwo(all, 1, 2);
    var read := C.Store(all, map[], C.HasRead(two));
    steps := FlusherMoves(steps, t, C.Read(2), read);
    InsertTwo(map[], Block(1, x), Block(2, x));
    var inserted := C.Store(all, map[1 := x, 2 := x], C.HasInserted(two));
    steps := FlusherMoves(steps, t.(store := read), C.Insert, inserted);
    Removed(x);
    var deleted := C.Store(map[3 := x, 4 := x], map[1 := x, 2 := x], C.Idle);
    steps := FlusherMoves(steps, t.(store := inserted), C.Delete, deleted);
    s := t.(store := deleted);
  }

  lemma Removed(x: Data)
    ensures Remove(map[1 := x, 2 := x, 3 := x, 4 := x], [Block(1, x), Block(2, x)]) == map[3 := x, 4 := x]
    ensures Remove(map[2 := x, 3 := x, 4 := x], [Block(3, x), Block(4, x)]) == map[2 := x]
  {
    TwoHeights(Block(1, x), Block(2, x));
    TwoHeights(Block(3, x), Block(4, x));
  }

  lemma TwoHeights(a: Block, b: Block)
    ensures Heights([a, b]) == {a.height, b.height}
  {
    assert a in [a, b] && b in [a, b];
  }

  /** The router's call fails, and it stores its batch again: block 2 comes back into the cache. */
  lemma StoredAgain(x: Data) returns (steps: seq<Step>, s: System)
    ensures Plays(steps, s)
    ensures s == Sys(Waiting(1), C.Store(map[2 := x, 3 := x, 4 := x], map[1 := x, 2 := x], C.HasRead([Block(3, x), Block(4, x)])),
                     Router(5, Batch(x), Stored), Scanning(0), 5, Begun(x))
  {
    steps, s := TwoMoved(x);
    var t := s.(router := Router(5, Batch(x), Taken));
    steps := Next(steps, s, RouterFails, t);
    InsertThree(map[3 := x, 4 := x], x);
    s := s.(store := s.store.(cache := map[2 := x, 3 := x, 4 := x]));
    steps := Next(steps, t, StoreBatch, s);
  }

  /** The flusher finishes: blocks 3 and 4 are not cached any more. */
  lemma CycleFinished(x: Data) returns (steps: seq<Step>, s: System)
    ensures Plays(steps, s)
    ensures s == Sys(Waiting(1), C.Store(map[2 := x], map[1 := x, 2 := x, 3 := x, 4 := x], C.Idle),
                     Router(5, Batch(x), Stored), Scanning(0), 5, Begun(x))
  {
    var t;
    steps, t := StoredAgain(x);
    InsertTwo(map[1 := x, 2 := x], Block(3, x), Block(4, x));
    var store := C.Store(t.store.cache, map[1 := x, 2 := x, 3 := x, 4 := x], C.HasInserted([Block(3, x), Block(4, x)]));
    steps := FlusherMoves(steps, t, C.Insert, store);
    Removed(x);
    var last := C.Store(map[2 := x], store.db, C.Idle);
    steps := FlusherMoves(steps, t.(store := store), C.Delete, last);
    s := t.(store := last);
  }

  // ----- The shard is flushed, and block 5 arrives -----

  lemma FlushJob()
    ensures S.Flush(Waiting(1), 4) == InStream(4, false)
    ensures S.Flush(InStream(4, false), 5) == InStream(5, false)
  {
    var p := [Entry(2, JOB)];
    assert S.CountBelow(p[1..], 4) == 0;
    assert p[..1] == p && p[1..] == [];
    assert S.Members(p) == [JOB];
    var g := Waiting(1).group;
    assert G.XAddAll(G.XAdd(g, JOB), [JOB][1..]) == G.XAdd(g, JOB);
    assert S.Members([]) == [];
  }

  lemma JobFlushed(steps: seq<Step>, s: System) returns (steps': seq<Step>)
    requires Plays(steps, s) && s.router.phase.Stored? && s.router.next == 5 && s.shard == Waiting(1)
    ensures Plays(steps', s.(shard := InStream(4, false), router := s.router.(phase := Flushed)))
  {
    FlushJob();
    steps' := RouterFlushes(steps, s, InStream(4, false));
  }

  lemma BatchFlushed(x: Data) returns (steps: seq<Step>, s: System)
    ensures Plays(steps, s)
    ensures s == Sys(InStream(4, false), C.Store(map[2 := x], map[1 := x, 2 := x, 3 := x, 4 := x], C.Idle),
                     Router(5, Batch(x), Flushed), Scanning(0), 5, Begun(x))
  {
    var t;
    steps, t := CycleFinished(x);
    steps := JobFlushed(steps, t);
    s := t.(shard := InStream(4, false), router := t.router.(phase := Flushed));
  }

  lemma BatchAcked(x: Data) returns (steps: seq<Step>, s: System)
    ensures Plays(steps, s)
    ensures s == Sys(InStream(4, false), C.Store(map[2 := x], map[1 := x, 2 := x, 3 := x, 4 := x], C.Idle),
                     Router(5, [], RouterIdle), Scanning(0), 5, Begun(x))
  {
    var t;
    steps, t := BatchFlushed(x);
    s := t.(router := Router(5, [], RouterIdle));
    steps := Next(steps, t, AckBatch, s);
  }

  function Holey(x: Data): C.Store {
    C.Store(map[2 := x, 5 := x], map[1 := x, 2 := x, 3 := x, 4 := x], C.Idle)
  }

  lemma NextBlock(x: Data) returns (steps: seq<Step>, s: System)
    ensures Plays(steps, s)
    ensures s == Sys(InStream(5, false), Holey(x), Router(6, [], RouterIdle), Scanning(0), 6, Begun(x))
  {
    steps, s := BatchAcked(x);
    var t := s.(router := Router(6, [Block(5, x)], Taken));
    assert BlocksFrom(5, [x]) == [Block(5, x)];
    steps := Next(steps, s, TakeBatch([x]), t);
    F.InsertOne(map[2 := x], Block(5, x));
    s := t.(store := Holey(x), router := Router(6, [Block(5, x)], Stored), tip := 6);
    steps := Next(steps, t, StoreBatch, s);
    FlushJob();
    steps := RouterFlushes(steps, s, InStream(5, false));
    t := s.(shard := InStream(5, false), router := s.router.(phase := Flushed));
    s := t.(router := Router(6, [], RouterIdle));
    steps := Next(steps, t, AckBatch, s);
  }

  // ----- The second request -----

  lemma NewMessage()
    ensures var g := InStream(5, false).group;
            G.BacklogBatch(g, 0, 0, 1) == [] && G.ReadBacklog(g, 0, 0, 1) == g
            && G.NewBatch(g, 1) == [MSG] && G.ReadNew(g, 0, 1) == InStream(5, true).group
  {
    var g := InStream(5, false).group;
    assert G.Owned(g.entries, g.pel, 0, 0) == G.Owned(g.entries[1..], g.pel, 0, 0) == [];
    assert G.After(g.entries, 1) == g.entries;
    assert G.IdsOf([MSG]) == {2};
    assert G.Delivered(map[], {2}, 0) == map[2 := G.Delivery(0, 1)];
  }

  lemma Awaited(x: Data) returns (steps: seq<Step>, s: System)
    ensures Plays(steps, s)
    ensures s == Sys(InStream(5, false), Holey(x), Router(6, [], RouterIdle), AwaitingNew, 6, Begun(x))
  {
    var t;
    steps, t := NextBlock(x);
    NewMessage();
    s := t.(locals := map[0 := AwaitingNew]);
    steps := Next(steps, t, ReadBacklog(0), s);
  }

  lemma WasReceived(x: Data) returns (steps: seq<Step>, s: System)
    ensures Plays(steps, s)
    ensures s == Sys(InStream(5, true), Holey(x), Router(6, [], RouterIdle), Busy(MSG, false, Received), 6, Begun(x))
  {
    var t;
    steps, t := Awaited(x);
    NewMessage();
    steps := RelayReadsNew(steps, t, MSG, InStream(5, true).group);
    s := t.(shard := t.shard.(group := InStream(5, true).group), locals := map[0 := Busy(MSG, false, Received)]);
  }

  lemma WasLookedUp(x: Data) returns (steps: seq<Step>, s: System)
    ensures Plays(steps, s)
    ensures s == Sys(InStream(5, true), Holey(x), Router(6, [], RouterIdle), Busy(MSG, false, Reading(ROW)), 6, Begun(x))
  {
    var t;
    steps, t := WasReceived(x);
    s := t.(locals := map[0 := Busy(MSG, false, Reading(ROW))]);
    steps := Next(steps, t, LookUp(0), s);
  }

  function Found(x: Data): seq<Block> {
    [Block(2, x), Block(5, x)]
  }

  lemma HoleyRange(x: Data)
    ensures Range(Holey(x).cache, 2, 5) == Found(x)
  {
    var t := Holey(x).cache;
    assert Range(t, 6, 5) == [];
    assert Range(t, 5, 5) == [Block(5, x)];
    assert Range(t, 4, 5) == [Block(5, x)];
    assert Range(t, 3, 5) == [Block(5, x)];
  }

  lemma FoundInCache(x: Data)
    ensures CachedBlocks(Holey(x), JOB, ROW) == Found(x)
  {
    HoleyRange(x);
    assert C.U64(5) == 5;
  }

  /** The database is only asked for what lies below the first cached block. */
  lemma FoundAtAll(x: Data)
    ensures BlocksToSend(Found(x), Holey(x).db, JOB, ROW) == Found(x)
  {
    assert C.U64(5) == 5 && C.U64(4) == 4 && C.U64(1) == 1;
    assert Range(Holey(x).db, 2, 1) == [];
  }

  /** The relay asks for the blocks from 2 to 5 and gets 2 and 5. */
  lemma SecondRequest(x: Data) returns (steps: seq<Step>, s: System)
    ensures Plays(steps, s)
    ensures s == Sys(InStream(5, true), Holey(x), Router(6, [], RouterIdle),
                     Busy(MSG, false, Sending(Found(x))), 6, Begun(x))
  {
    var t;
    steps, t := WasLookedUp(x);
    FoundInCache(x);
    FoundAtAll(x);
    steps := RelayReads(steps, t, MSG, ROW, Found(x), Found(x));
    s := t.(locals := map[0 := Busy(MSG, false, Sending(Found(x)))]);
  }

  function AfterPost(x: Data): History {
    Begun(x).(posted := Begun(x).posted + Postings(0, Found(x)), attempts := Begun(x).attempts[MSG := 1])
  }

  lemma SecondSent(x: Data) returns (steps: seq<Step>, s: System)
    ensures Plays(steps, s)
    ensures s == Sys(InStream(5, true), Holey(x), Router(6, [], RouterIdle),
                     Busy(MSG, false, Sent(Found(x))), 6, AfterPost(x))
  {
    var t;
    steps, t := SecondRequest(x);
    s := t.(locals := map[0 := Busy(MSG, false, Sent(Found(x)))], history := AfterPost(x));
    steps := Next(steps, t, Post(0, true), s);
  }

  lemma RescheduleSecond()
    ensures S.Reschedule(InStream(5, true), 2, Job(0, 6, false))
            == S.Shard(Some(5), [Entry(6, Job(0, 6, false))], G.Group([], 3, 2, map[]), {0})
  {
    assert G.Without([MSG], {2}) == G.Without([MSG][1..], {2}) == [];
    assert ZAdd([], 6, Job(0, 6, false)) == [Entry(6, Job(0, 6, false))];
    assert map[2 := G.Delivery(0, 1)] - {2} == map[];
  }

  lemma NeverSent(x: Data, h: nat)
    requires h == 3 || h == 4
    ensures (0, Block(h, x)) !in AfterPost(x).posted
  {
    assert Block(h, x) !in Found(x) && Block(h, x) !in [Block(1, x)];
  }

  lemma SecondDone(x: Data) returns (steps: seq<Step>, s: System)
    ensures Plays(steps, s)
    ensures s == Sys(S.Shard(Some(5), [Entry(6, Job(0, 6, false))], G.Group([], 3, 2, map[]), {0}), Holey(x),
                     Router(6, [], RouterIdle), Scanning(0), 6, AfterPost(x))
  {
    var t;
    steps, t := SecondSent(x);
    RescheduleSecond();
    assert NextJob(JOB, Found(x)) == Job(0, 6, false);
    var shard := S.Shard(Some(5), [Entry(6, Job(0, 6, false))], G.Group([], 3, 2, map[]), {0});
    steps := RelayFinishes(steps, t, MSG, Found(x), shard, AfterPost(x));
    s := t.(shard := shard, locals := map[0 := Scanning(0)], history := AfterPost(x));
  }

  /**
   The established job stands at height 6. Blocks 3 and 4 are in the database, and they were neither sent to the
   webhook nor given up.
   */
  lemma ReplayedBatchLosesBlocks(x: Data) returns (steps: seq<Step>, s: System)
    ensures Plays(steps, s)
    ensures s.shard.pending == [Entry(6, Job(0, 6, false))] && s.history.first == map[0 := 1]
    ensures forall h :: 3 <= h <= 4 ==> h in s.store.db && !D.Done(s, 0, h)
  {
    steps, s := SecondDone(x);
    forall h | 3 <= h <= 4 ensures h in s.store.db && !D.Done(s, 0, h) {
      NotDone(s, x, h);
    }
  }

  lemma NotDone(s: System, x: Data, h: nat)
    requires (h == 3 || h == 4) && s.store == Holey(x) && s.history == AfterPost(x)
    ensures h in s.store.db && !D.Done(s, 0, h)
  {
    NeverSent(x, h);
    assert C.Union(s.store)[h] == x;
  }
}
