/**
 A run in which a relay crashes after the first request of a new webhook was delivered and before it acknowledged
 the message. The request is made again with newer blocks, and the ones in between are never sent.
 */
module FirstSendGap {
  import opened Wrappers
  import opened PendingSet
  import opened BlockTables
  import opened Scheduler
  import C = CachedStore
  import D = SchedulerDelivery
  import G = RedisGroup
  import S = WebhookShard

  ghost predicate Plays(steps: seq<Step>, s: System) {
    D.DisciplinedRun(Init(1), steps) && D.Reached(1, steps) == s
  }

  lemma {:induction false} Extend(s: System, steps: seq<Step>, step: Step)
    requires D.DisciplinedRun(s, steps) && IsRun(s, steps)
    requires Enabled(After(s, steps), step) && D.Disciplined(After(s, steps), step)
    ensures D.DisciplinedRun(s, steps + [step]) && IsRun(s, steps + [step])
    ensures After(s, steps + [step]) == Do(After(s, steps), step)
    decreases |steps|
  {
    if steps == [] {
      assert [step][1..] == [];
    } else {
      Extend(Do(s, steps[0]), steps[1..], step);
      assert (steps + [step])[1..] == steps[1..] + [step];
    }
  }

  lemma Next(steps: seq<Step>, s: System, step: Step, r: System) returns (steps': seq<Step>)
    requires Plays(steps, s) && Enabled(s, step) && D.Disciplined(s, step) && r == Do(s, step)
    ensures Plays(steps', r)
  {
    D.DisciplinedIsRun(Init(1), steps);
    Extend(Init(1), steps, step);
    steps' := steps + [step];
  }

  // ----- The states of the run -----

  const ROW: Webhook := Webhook(1, 5)
  const JOB: Job := Job(0, 0, true)
  const MSG: G.Msg<Job> := G.Msg(1, JOB)

  /** The message is in the stream and has been delivered to consumer 0 so many times. */
  function InStream(deliveries: nat, latest: nat): S.Shard {
    S.Shard(Some(latest), [],
            G.Group([MSG], 2, if deliveries == 0 then 0 else 1,
                    if deliveries == 0 then map[] else map[1 := G.Delivery(0, deliveries)]), {0})
  }

  function WithTip(x: Data, shard: S.Shard, tip: nat, local: map<G.Consumer, Local>, history: History): System
    requires tip == 2 || tip == 4
  {
    System(shard, C.Store(if tip == 2 then map[1 := x] else map[1 := x, 2 := x, 3 := x], map[], C.Idle),
           Router(tip, [], RouterIdle), map[0 := ROW], local, 1, tip, history)
  }

  const NOTHING: History := History({}, {}, map[], map[], map[], {})

  lemma OneFresh()
    ensures S.ZAddAll([], S.FreshJobs({}, [0])) == [Entry(0, JOB)] && S.SetOf([0]) == {0}
  {
    assert S.FreshJobs({}, [0]) == [JOB];
    assert S.ZAddAll(ZAdd([], 0, JOB), [JOB][1..]) == ZAdd([], 0, JOB);
  }

  lemma FlushOne()
    ensures S.Flush(S.Shard(None, [Entry(0, JOB)], G.Empty(), {0}), 1) == InStream(0, 1)
  {
    var p := [Entry(0, JOB)];
    assert S.CountBelow(p[1..], 1) == 0;
    assert p[..1] == p && p[1..] == [];
    assert S.Members(p) == [JOB];
    assert G.XAddAll(G.XAdd(G.Empty(), JOB), [JOB][1..]) == G.XAdd(G.Empty(), JOB);
  }

  lemma InsertOne(t: Table, b: Block)
    requires b.height !in t
    ensures InsertIfAbsent(t, [b]) == t[b.height := b.data]
  {
    assert [b][1..] == [];
  }

  lemma LatestOne(t: Table, h: nat)
    requires h in t && forall k :: k in t ==> k <= h
    ensures Latest(t, 1) == [Block(h, t[h])]
  {
    assert Latest(t - {Highest(t)}, 0) == [];
  }

  /** The webhook is activated, block 1 arrives, and the job moves to the stream. */
  lemma FirstBlock(x: Data) returns (steps: seq<Step>, s: System)
    ensures Plays(steps, s) && s == WithTip(x, InStream(0, 1), 2, map[], NOTHING)
  {
    steps, s := Activated();
    var t := s.(router := Router(2, [Block(1, x)], Taken));
    assert BlocksFrom(1, [x]) == [Block(1, x)];
    steps := Next(steps, s, TakeBatch([x]), t);
    InsertOne(map[], Block(1, x));
    s := t.(store := C.Store(map[1 := x], map[], C.Idle), router := Router(2, [Block(1, x)], Stored), tip := 2);
    steps := Next(steps, t, StoreBatch, s);
    FlushOne();
    t := s.(shard := InStream(0, 1), router := Router(2, [Block(1, x)], Flushed));
    steps := Next(steps, s, FlushShard, t);
    s := WithTip(x, InStream(0, 1), 2, map[], NOTHING);
    steps := Next(steps, t, AckBatch, s);
  }

  lemma Activated() returns (steps: seq<Step>, s: System)
    ensures Plays(steps, s)
    ensures s == Init(1).(shard := S.Shard(None, [Entry(0, JOB)], G.Empty(), {0}), rows := map[0 := ROW])
  {
    steps, s := [], Init(1);
    var t := s.(rows := map[0 := ROW]);
    steps := Next(steps, s, SetRow(0, ROW), t);
    OneFresh();
    s := t.(shard := S.Shard(None, [Entry(0, JOB)], G.Empty(), {0}));
    steps := Next(steps, t, Activate([0]), s);
  }

  // ----- One request -----

  function AtPhase(s: System, backlog: bool, p: Phase): System {
    s.(locals := map[0 := Busy(MSG, backlog, p)])
  }

  function Posted(h: History, blocks: seq<Block>): History {
    h.(posted := h.posted + Postings(0, blocks),
       attempts := h.attempts[MSG := (if MSG in h.attempts then h.attempts[MSG] else 0) + 1],
       heard := Hear(h.heard, JOB, blocks))
  }

  /** From the lookup of the row to the delivered POST of the latest block. */
  lemma Request(x: Data, steps: seq<Step>, s: System, backlog: bool, h: nat) returns (steps': seq<Step>, s': System)
    requires Plays(steps, s) && s.locals == map[0 := Busy(MSG, backlog, Reading(ROW))]
    requires s.store.db == map[] && h in s.store.cache && s.store.cache[h] == x && forall k :: k in s.store.cache ==> k <= h
    ensures Plays(steps', s')
    ensures s' == AtPhase(s, backlog, Sent([Block(h, x)])).(history := Posted(s.history, [Block(h, x)]))
  {
    var blocks := [Block(h, x)];
    var r := AtPhase(s, backlog, Sending(blocks));
    steps' := LatestRead(x, steps, s, backlog, h, r);
    s' := AtPhase(s, backlog, Sent(blocks)).(history := Posted(s.history, blocks));
    steps' := Next(steps', r, Post(0, true), s');
  }

  lemma LatestRead(x: Data, steps: seq<Step>, s: System, backlog: bool, h: nat, r: System) returns (steps': seq<Step>)
    requires Plays(steps, s) && s.locals == map[0 := Busy(MSG, backlog, Reading(ROW))]
    requires h in s.store.cache && s.store.cache[h] == x && forall k :: k in s.store.cache ==> k <= h
    requires r == AtPhase(s, backlog, Sending([Block(h, x)]))
    ensures Plays(steps', r)
  {
    LatestOne(s.store.cache, h);
    var blocks := [Block(h, x)];
    var t := AtPhase(s, backlog, HalfRead(ROW, blocks, s.store, s.tip));
    assert CachedBlocks(s.store, JOB, ROW) == blocks;
    steps' := Next(steps, s, ReadCache(0), t);
    assert BlocksToSend(blocks, s.store.db, JOB, ROW) == blocks;
    steps' := Next(steps', t, ReadDb(0), r);
  }

  lemma NewMessage()
    ensures var g := InStream(0, 1).group;
            G.BacklogBatch(g, 0, 0, 1) == [] && G.ReadBacklog(g, 0, 0, 1) == g
            && G.NewBatch(g, 1) == [MSG] && G.ReadNew(g, 0, 1) == InStream(1, 1).group
  {
    var g := InStream(0, 1).group;
    assert G.Owned(g.entries, g.pel, 0, 0) == G.Owned(g.entries[1..], g.pel, 0, 0) == [];
    assert G.After(g.entries, 0) == g.entries;
    assert G.IdsOf([MSG]) == {1};
    assert G.Delivered(map[], {1}, 0) == map[1 := G.Delivery(0, 1)];
  }

  lemma FirstRead(x: Data) returns (steps: seq<Step>, s: System)
    ensures Plays(steps, s)
    ensures s == WithTip(x, InStream(1, 1), 2, map[0 := Busy(MSG, false, Reading(ROW))], NOTHING)
  {
    var t;
    steps, t := FirstReceived(x);
    s := AtPhase(t, false, Reading(ROW));
    steps := Next(steps, t, LookUp(0), s);
  }

  lemma FirstReceived(x: Data) returns (steps: seq<Step>, s: System)
    ensures Plays(steps, s)
    ensures s == WithTip(x, InStream(1, 1), 2, map[0 := Busy(MSG, false, Received)], NOTHING)
  {
    var t;
    steps, t := Awaiting(x);
    NewMessage();
    s := AtPhase(t, false, Received).(shard := InStream(1, 1));
    steps := Next(steps, t, ReadNew(0), s);
  }

  lemma Awaiting(x: Data) returns (steps: seq<Step>, s: System)
    ensures Plays(steps, s)
    ensures s == WithTip(x, InStream(0, 1), 2, map[0 := AwaitingNew], NOTHING)
  {
    steps, s := FirstBlock(x);
    NewMessage();
    var t := s.(locals := map[0 := AwaitingNew]);
    steps := Next(steps, s, ReadBacklog(0), t);
    s := t;
  }

  /** The consumer reads the new message and sends block 1; then it crashes. */
  lemma FirstRequest(x: Data) returns (steps: seq<Step>, s: System)
    ensures Plays(steps, s)
    ensures s == WithTip(x, InStream(1, 1), 2, map[0 := Scanning(0)], Posted(NOTHING, [Block(1, x)]))
  {
    steps, s := FirstRead(x);
    steps, s := Request(x, steps, s, false, 1);
    var t := s.(locals := map[0 := Scanning(0)]);
    steps := Next(steps, s, ConsumerCrashes(0), t);
    s := t;
  }

  /** Blocks 2 and 3 arrive. */
  lemma MoreBlocks(x: Data) returns (steps: seq<Step>, s: System)
    ensures Plays(steps, s)
    ensures s == WithTip(x, InStream(1, 3), 4, map[0 := Scanning(0)], Posted(NOTHING, [Block(1, x)]))
  {
    steps, s := FirstRequest(x);
    var batch := [Block(2, x), Block(3, x)];
    assert BlocksFrom(2, [x, x]) == batch;
    var t := s.(router := Router(4, batch, Taken));
    steps := Next(steps, s, TakeBatch([x, x]), t);
    assert batch[1..] == [Block(3, x)];
    InsertOne(map[1 := x, 2 := x], Block(3, x));
    s := t.(store := C.Store(map[1 := x, 2 := x, 3 := x], map[], C.Idle), router := Router(4, batch, Stored), tip := 4);
    steps := Next(steps, t, StoreBatch, s);
    FlushNothing();
    t := s.(shard := InStream(1, 3), router := Router(4, batch, Flushed));
    steps := Next(steps, s, FlushShard, t);
    s := WithTip(x, InStream(1, 3), 4, map[0 := Scanning(0)], Posted(NOTHING, [Block(1, x)]));
    steps := Next(steps, t, AckBatch, s);
  }

  lemma FlushNothing()
    ensures S.Flush(InStream(1, 1), 3) == InStream(1, 3)
  {
    assert S.Members([]) == [];
  }

  lemma OldMessage()
    ensures var g := InStream(1, 3).group;
            G.BacklogBatch(g, 0, 0, 1) == [MSG] && G.ReadBacklog(g, 0, 0, 1) == InStream(2, 3).group
  {
    var g := InStream(1, 3).group;
    assert G.Owned(g.entries[1..], g.pel, 0, 0) == [];
    assert G.Owned(g.entries, g.pel, 0, 0) == [MSG];
    assert G.IdsOf([MSG]) == {1};
  }

  /** The message is read again from the backlog, and now block 3 is the latest one. */
  lemma SecondRequest(x: Data) returns (steps: seq<Step>, s: System)
    ensures Plays(steps, s)
    ensures s == WithTip(x, InStream(2, 3), 4, map[0 := Busy(MSG, true, Sent([Block(3, x)]))],
                         Posted(Posted(NOTHING, [Block(1, x)]), [Block(3, x)]))
  {
    steps, s := SecondRead(x);
    steps, s := Request(x, steps, s, true, 3);
  }

  lemma SecondRead(x: Data) returns (steps: seq<Step>, s: System)
    ensures Plays(steps, s)
    ensures s == WithTip(x, InStream(2, 3), 4, map[0 := Busy(MSG, true, Reading(ROW))], Posted(NOTHING, [Block(1, x)]))
  {
    steps, s := MoreBlocks(x);
    OldMessage();
    var t := AtPhase(s, true, Received).(shard := InStream(2, 3));
    steps := Next(steps, s, ReadBacklog(0), t);
    s := AtPhase(t, true, Reading(ROW));
    steps := Checked(steps, t, s);
  }

  lemma Checked(steps: seq<Step>, s: System, r: System) returns (steps': seq<Step>)
    requires Plays(steps, s) && s.locals == map[0 := Busy(MSG, true, Received)]
    requires s.rows == map[0 := ROW] && s.shard == InStream(2, 3) && r == AtPhase(s, true, Reading(ROW))
    ensures Plays(steps', r)
  {
    var t := AtPhase(s, true, Checking(ROW));
    steps' := Next(steps, s, LookUp(0), t);
    steps' := Next(steps', t, CheckRetries(0), r);
  }

  /**
   Block 1 was delivered, the job has gone on to height 4, and block 2, though stored, was neither sent nor given
   up. So "no block is passed over" counts from the first request that is acknowledged, not from the first one
   that is delivered.
   */
  lemma FirstDeliveryIsNoBeginning(x: Data) returns (steps: seq<Step>, s: System)
    ensures Plays(steps, s)
    ensures (0, Block(1, x)) in s.history.posted
    ensures s.shard.pending == [Entry(4, Job(0, 4, false))]
    ensures 2 in C.Union(s.store) && !D.Done(s, 0, 2)
  {
    steps, s := SecondRequest(x);
    var t := Do(s, Finish(0));
    steps := Next(steps, s, Finish(0), t);
    TwoPosts(x);
    assert t.shard.pending == ZAdd([], 4, Job(0, 4, false));
    s := t;
  }

  lemma TwoPosts(x: Data)
    ensures var posted := Posted(Posted(NOTHING, [Block(1, x)]), [Block(3, x)]).posted;
            (0, Block(1, x)) in posted && (0, Block(2, x)) !in posted
  {
    assert (0, Block(1, x)) in Postings(0, [Block(1, x)]);
    assert Block(2, x) !in [Block(1, x)] && Block(2, x) !in [Block(3, x)];
  }
}
