/** How a webhook begins. */
module SchedulerBeginning {
  // The first request of a new job may be delivered several times, each time with the then latest blocks, until one
  // delivery is acknowledged. This module follows the heights that the webhook has heard of that way.

  import opened PendingSet
  import opened BlockTables
  import opened Scheduler
  import opened SchedulerOwnership
  import S = WebhookShard
  import G = RedisGroup
  import C = CachedStore
  import D = SchedulerDelivery
  import L = LatestBlocks

  ghost function Heard(s: System, id: WebhookId): set<nat> {
    HeardBy(s.history.heard, id)
  }

  /** The stored block at a height was POSTed to the webhook. */
  ghost predicate Delivered(s: System, id: WebhookId, h: nat) {
    h in C.Union(s.store) && (id, Block(h, C.Union(s.store)[h])) in s.history.posted
  }

  // ----- The invariant -----

  ghost predicate HeardOk(s: System) {
    && (forall id :: id in s.history.heard ==> s.history.heard[id] != {})
    && (forall id, h :: h in Heard(s, id) ==> Delivered(s, id, h) && h < s.tip)
  }

  /** From where an established job began, the webhook has heard of every height up to the highest one. */
  ghost predicate FirstOk(s: System) {
    forall id :: id in s.history.first ==>
      && s.history.first[id] in Heard(s, id)
      && forall b, k :: b in Heard(s, id) && s.history.first[id] <= k <= b ==> k in Heard(s, id)
  }

  /** A new job has not begun, and only active webhooks have. */
  ghost predicate NewOk(s: System) {
    && (forall m :: m in s.shard.group.entries && m.data.isNew ==> m.data.id !in s.history.first)
    && (forall e :: e in s.shard.pending && e.job.isNew ==> e.job.id !in s.history.first)
    && (forall id :: id in s.history.first ==> id in s.shard.webhooks)
  }

  /** A webhook that was never dropped got nothing below its beginning but what it has heard of. */
  ghost predicate NothingElse(s: System) {
    && (forall id, b :: (id, b) in s.history.posted && id !in s.history.dropped ==>
          b.height in Heard(s, id) || (id in s.history.first && s.history.first[id] <= b.height))
    && (forall id, h :: (id, h) in s.history.skipped && id !in s.history.dropped ==>
          id in s.history.first && s.history.first[id] <= h)
  }

  /** A request under way for a new job reaches at least as high as anything heard before. */
  ghost predicate PhaseOk(heard: set<nat>, p: Phase) {
    match p
    case HalfRead(_, _, _, snapshotTip) => forall h :: h in heard ==> h < snapshotTip
    case Sending(blocks) => blocks != [] && forall h :: h in heard ==> h <= blocks[0].height
    case Sent(blocks) =>
      && blocks != [] && (forall h :: h in heard ==> h <= blocks[0].height)
      && forall b :: b in blocks ==> b.height in heard
    case _ => true
  }

  ghost predicate LocalOk(s: System, c: G.Consumer) {
    At(s, c).Busy? && At(s, c).msg.data.isNew ==> PhaseOk(Heard(s, At(s, c).msg.data.id), At(s, c).phase)
  }

  ghost predicate Inv(s: System) {
    HeardOk(s) && FirstOk(s) && NewOk(s) && NothingElse(s) && forall c :: LocalOk(s, c)
  }

  // ----- Steps that deliver nothing -----

  ghost predicate SameHistory(h: History, h': History) {
    h'.heard == h.heard && h'.first == h.first && h'.posted == h.posted && h'.skipped == h.skipped && h'.dropped == h.dropped
  }

  lemma HeardKept(s: System, s': System)
    requires HeardOk(s) && s'.history.heard == s.history.heard && s.history.posted <= s'.history.posted
    requires C.Evolves(s.store, s'.store) && s.tip <= s'.tip
    ensures HeardOk(s')
  {
    forall id, h | h in Heard(s', id) ensures Delivered(s', id, h) && h < s'.tip {
      assert h in Heard(s, id);
    }
  }

  /** Steps of the store, the router, the shard and the activation. */
  lemma WorldStepKeeps(s: System, s': System)
    requires Inv(s) && NewOk(s') && SameHistory(s.history, s'.history) && s'.locals == s.locals
    requires C.Evolves(s.store, s'.store) && s.tip <= s'.tip
    ensures Inv(s')
  {
    HeardKept(s, s');
    forall c ensures LocalOk(s', c) {
      assert LocalOk(s, c);
      assert At(s', c) == At(s, c);
    }
  }

  /** Steps of one consumer that deliver nothing and acknowledge nothing. */
  lemma LocalStepKeeps(s: System, s': System, c: G.Consumer)
    requires Inv(s) && SameHistory(s.history, s'.history)
    requires s'.shard == s.shard.(group := s'.shard.group) && s'.shard.group.entries == s.shard.group.entries
    requires s'.store == s.store && s'.tip == s.tip
    requires forall d :: d != c ==> At(s', d) == At(s, d)
    requires LocalOk(s', c)
    ensures Inv(s')
  {
    C.EvolvesReflexive(s.store);
    HeardKept(s, s');
    forall d ensures LocalOk(s', d) {
      if d != c {
        assert LocalOk(s, d);
        assert At(s', d) == At(s, d);
      }
    }
  }

  lemma ActivateKeeps(s: System, ids: seq<WebhookId>)
    requires Inv(s) && OwnInv(s)
    ensures Inv(Do(s, Activate(ids)))
  {
    S.ActivateExact(s.shard, ids);
    C.EvolvesReflexive(s.store);
    WorldStepKeeps(s, Do(s, Activate(ids)));
  }

  lemma FlushKeeps(s: System)
    requires Inv(s) && OwnInv(s) && Enabled(s, FlushShard)
    ensures Inv(Do(s, FlushShard))
  {
    var height := if s.router.next > 0 then s.router.next - 1 else 0;
    var r := Do(s, FlushShard);
    S.FlushExact(s.shard, height);
    forall m | m in r.shard.group.entries && m.data.isNew ensures m.data.id !in r.history.first {
      S.FlushSources(s.shard, height, m);
    }
    C.EvolvesReflexive(s.store);
    WorldStepKeeps(s, r);
  }

  lemma StoreKeeps(s: System, step: Step)
    requires Inv(s) && D.Inv(s) && Enabled(s, step) && D.Disciplined(s, step) && (step.StoreBatch? || step.FlusherStep?)
    ensures Inv(Do(s, step))
  {
    if step.StoreBatch? {
      if s.tip != s.router.next {
        D.FirstStoreIsSafe(s);
      }
      D.StoreBatchStore(s);
    } else {
      D.FlusherStore(s, step.step);
    }
    WorldStepKeeps(s, Do(s, step));
  }

  lemma QuietKeeps(s: System, step: Step)
    requires Inv(s) && Enabled(s, step)
    requires step.SetRow? || step.DeleteRow? || step.TakeBatch? || step.AckBatch? || step.RouterFails?
    ensures Inv(Do(s, step))
  {
    C.EvolvesReflexive(s.store);
    WorldStepKeeps(s, Do(s, step));
  }

  // ----- A consumer reads -----

  lemma ReadCacheKeeps(s: System, c: G.Consumer)
    requires Inv(s) && Enabled(s, ReadCache(c))
    ensures Inv(Do(s, ReadCache(c)))
  {
    var id := At(s, c).msg.data.id;
    assert forall h :: h in Heard(s, id) ==> h < s.tip;
    assert Heard(Do(s, ReadCache(c)), id) == Heard(s, id);
    LocalStepKeeps(s, Do(s, ReadCache(c)), c);
  }

  /** A first request begins no lower than the latest block at the time when the cache was read. */
  lemma RequestReachesTip(s: System, job: Job, p: Phase)
    requires D.StoreOk(s) && p.HalfRead? && D.HalfReadOk(s, job, p) && job.isNew
    ensures var blocks := BlocksToSend(p.cached, s.store.db, job, p.row);
            blocks != [] && p.snapshotTip - 1 <= blocks[0].height
  {
    var lo, hi := L.LatestBlocksSnapshot(p.snapshot, s.store, s.base, p.snapshotTip, s.tip, p.row.maxBlocks);
  }

  lemma ReadDbKeeps(s: System, c: G.Consumer)
    requires Inv(s) && D.Inv(s) && Enabled(s, ReadDb(c))
    ensures Inv(Do(s, ReadDb(c)))
  {
    assert LocalOk(s, c);
    assert D.LocalOk(s, c);
    if At(s, c).msg.data.isNew {
      RequestReachesTip(s, At(s, c).msg.data, At(s, c).phase);
    }
    LocalStepKeeps(s, Do(s, ReadDb(c)), c);
  }

  // ----- A consumer delivers -----

  /** Two handlers work for two webhooks. */
  lemma OtherWebhook(s: System, c: G.Consumer, d: G.Consumer)
    requires OwnInv(s) && c != d && At(s, c).Busy? && At(s, d).Busy?
    ensures At(s, c).msg.data.id != At(s, d).msg.data.id
  {
    assert Holds(s, c) && Holds(s, d);
    S.StreamJobIsAlone(s.shard, At(s, c).msg);
  }

  /** A delivered request adds the heights of its blocks. */
  lemma NewlyHeard(s: System, c: G.Consumer, id: WebhookId, h: nat)
    requires D.Inv(s) && Enabled(s, Post(c, true)) && At(s, c).msg.data.isNew && h in Heard(Do(s, Post(c, true)), id)
    ensures h in Heard(s, id) || Delivered(Do(s, Post(c, true)), id, h)
  {
    var job, blocks := At(s, c).msg.data, At(s, c).phase.blocks;
    if h !in Heard(s, id) {
      assert D.LocalOk(s, c);
      D.GoodBlocksAreStored(s, job, blocks);
      var b :| b in blocks && b.height == h;
      assert (id, b) in Postings(job.id, blocks);
    }
  }

  lemma PostNewHeard(s: System, c: G.Consumer)
    requires Inv(s) && D.Inv(s) && Enabled(s, Post(c, true)) && At(s, c).msg.data.isNew
    ensures HeardOk(Do(s, Post(c, true)))
  {
    var r := Do(s, Post(c, true));
    forall id, h | h in Heard(r, id) ensures Delivered(r, id, h) && h < r.tip {
      NewlyHeard(s, c, id, h);
      if h in Heard(s, id) {
        assert Delivered(s, id, h);
      }
    }
    assert At(s, c).phase.blocks[0].height in Heights(At(s, c).phase.blocks);
  }

  lemma DeliveredOk(heard: set<nat>, blocks: seq<Block>, u: Table, lo: nat)
    requires blocks != [] && L.RunsDown(blocks, u, lo, blocks[0].height) && PhaseOk(heard, Sending(blocks))
    ensures PhaseOk(heard + Heights(blocks), Sent(blocks))
  {
    L.RunHeights(blocks, u, lo, blocks[0].height);
    L.RunMembers(blocks, u, lo, blocks[0].height);
  }

  lemma PostNewLocal(s: System, c: G.Consumer)
    requires D.Inv(s) && LocalOk(s, c) && Enabled(s, Post(c, true)) && At(s, c).msg.data.isNew
    ensures LocalOk(Do(s, Post(c, true)), c)
  {
    var r := Do(s, Post(c, true));
    var job, blocks := At(s, c).msg.data, At(s, c).phase.blocks;
    assert D.LocalOk(s, c);
    DeliveredOk(Heard(s, job.id), blocks, C.Union(s.store), blocks[|blocks| - 1].height);
    assert Heard(r, job.id) == Heard(s, job.id) + Heights(blocks);
  }

  lemma PostNewLocals(s: System, c: G.Consumer)
    requires D.Inv(s) && OwnInv(s) && (forall d :: LocalOk(s, d)) && Enabled(s, Post(c, true)) && At(s, c).msg.data.isNew
    ensures forall d :: LocalOk(Do(s, Post(c, true)), d)
  {
    var r := Do(s, Post(c, true));
    forall d ensures LocalOk(r, d) {
      assert LocalOk(s, d);
      if d == c {
        PostNewLocal(s, c);
      } else if At(s, d).Busy? {
        OtherWebhook(s, c, d);
        assert At(r, d) == At(s, d);
      }
    }
  }

  lemma PostNewNothingElse(s: System, c: G.Consumer)
    requires NothingElse(s) && FirstOk(s) && Enabled(s, Post(c, true)) && At(s, c).msg.data.isNew
    requires At(s, c).msg.data.id !in s.history.first
    ensures NothingElse(Do(s, Post(c, true))) && FirstOk(Do(s, Post(c, true)))
  {
    var r := Do(s, Post(c, true));
    forall id, b | (id, b) in r.history.posted && id !in r.history.dropped
      ensures b.height in Heard(r, id) || (id in r.history.first && r.history.first[id] <= b.height)
    {
      if (id, b) !in s.history.posted {
        assert b in At(s, c).phase.blocks;
      }
    }
    assert forall id :: id != At(s, c).msg.data.id ==> Heard(r, id) == Heard(s, id);
  }

  lemma PostNewKeeps(s: System, c: G.Consumer)
    requires Inv(s) && D.Inv(s) && OwnInv(s) && Enabled(s, Post(c, true)) && At(s, c).msg.data.isNew
    ensures Inv(Do(s, Post(c, true)))
  {
    assert Holds(s, c);
    PostNewHeard(s, c);
    PostNewNothingElse(s, c);
    PostNewLocals(s, c);
  }

  /** An established job is delivered nothing below its beginning. */
  lemma PostOldNothingElse(s: System, c: G.Consumer)
    requires NothingElse(s) && D.LocalOk(s, c) && Enabled(s, Post(c, true)) && !At(s, c).msg.data.isNew
    requires D.JobOk(s, At(s, c).msg.data)
    ensures NothingElse(Do(s, Post(c, true)))
  {
    var r := Do(s, Post(c, true));
    var job, blocks := At(s, c).msg.data, At(s, c).phase.blocks;
    forall id, b | (id, b) in r.history.posted && id !in r.history.dropped
      ensures b.height in Heard(r, id) || (id in r.history.first && r.history.first[id] <= b.height)
    {
      if (id, b) !in s.history.posted {
        var i :| 0 <= i < |blocks| && blocks[i] == b;
        assert b.height == job.height + i;
      }
    }
  }

  lemma SameHeard(s: System, s': System, c: G.Consumer)
    requires (forall d :: LocalOk(s, d)) && s'.history.heard == s.history.heard
    requires forall d :: d != c ==> At(s', d) == At(s, d)
    requires LocalOk(s', c)
    ensures forall d :: LocalOk(s', d)
  {
    forall d ensures LocalOk(s', d) {
      if d != c {
        assert LocalOk(s, d);
        assert At(s', d) == At(s, d);
      }
    }
  }

  lemma PostOldKeeps(s: System, c: G.Consumer)
    requires Inv(s) && D.LocalOk(s, c) && Enabled(s, Post(c, true)) && !At(s, c).msg.data.isNew
    requires D.JobOk(s, At(s, c).msg.data)
    ensures Inv(Do(s, Post(c, true)))
  {
    PostOldNothingElse(s, c);
    PostOldHeard(s, c);
    SameHeard(s, Do(s, Post(c, true)), c);
  }

  lemma PostOldHeard(s: System, c: G.Consumer)
    requires HeardOk(s) && Enabled(s, Post(c, true)) && !At(s, c).msg.data.isNew
    ensures HeardOk(Do(s, Post(c, true)))
  {
    C.EvolvesReflexive(s.store);
    HeardKept(s, Do(s, Post(c, true)));
  }

  lemma PostFailedKeeps(s: System, c: G.Consumer)
    requires Inv(s) && Enabled(s, Post(c, false))
    ensures Inv(Do(s, Post(c, false)))
  {
    LocalStepKeeps(s, Do(s, Post(c, false)), c);
  }

  lemma PostKeeps(s: System, c: G.Consumer, delivered: bool)
    requires Inv(s) && D.Inv(s) && OwnInv(s) && Enabled(s, Post(c, delivered))
    ensures Inv(Do(s, Post(c, delivered)))
  {
    if !delivered {
      PostFailedKeeps(s, c);
    } else if At(s, c).msg.data.isNew {
      PostNewKeeps(s, c);
    } else {
      OldJobAtHand(s, c);
      PostOldKeeps(s, c);
    }
  }

  lemma OldJobAtHand(s: System, c: G.Consumer)
    requires D.Inv(s) && OwnInv(s) && At(s, c).Busy?
    ensures D.LocalOk(s, c) && D.JobOk(s, At(s, c).msg.data)
  {
    assert Holds(s, c);
    assert D.LocalOk(s, c);
  }

  // ----- A consumer is done with a message -----

  /** Nothing changes for the other webhooks. */
  lemma OthersKeep(s: System, s': System, c: G.Consumer)
    requires Inv(s) && OwnInv(s) && At(s, c).Busy? && At(s', c).Scanning?
    requires forall d :: d != c ==> At(s', d) == At(s, d)
    requires forall id :: id != At(s, c).msg.data.id ==> Heard(s', id) == Heard(s, id)
    ensures forall d :: LocalOk(s', d)
  {
    forall d ensures LocalOk(s', d) {
      if d != c && At(s, d).Busy? {
        OtherWebhook(s, c, d);
        assert LocalOk(s, d);
        assert At(s', d) == At(s, d);
      }
    }
  }

  lemma DropHeard(s: System, c: G.Consumer)
    requires HeardOk(s) && FirstOk(s) && NothingElse(s) && Enabled(s, DropJob(c))
    ensures HeardOk(Do(s, DropJob(c))) && FirstOk(Do(s, DropJob(c))) && NothingElse(Do(s, DropJob(c)))
    ensures forall id :: id != At(s, c).msg.data.id ==> Heard(Do(s, DropJob(c)), id) == Heard(s, id)
  {
    var r := Do(s, DropJob(c));
    forall id, h | h in Heard(r, id) ensures Delivered(r, id, h) && h < r.tip {
      assert h in Heard(s, id);
    }
    assert forall id :: id != At(s, c).msg.data.id ==> Heard(r, id) == Heard(s, id);
  }

  lemma DropKeeps(s: System, c: G.Consumer)
    requires Inv(s) && OwnInv(s) && Enabled(s, DropJob(c))
    ensures Inv(Do(s, DropJob(c)))
  {
    assert Holds(s, c);
    S.DropExact(s.shard, At(s, c).msg);
    DropHeard(s, c);
    OthersKeep(s, Do(s, DropJob(c)), c);
  }

  lemma RescheduledNewOk(s: System, s': System, m: G.Msg<Job>, job: Job)
    requires NewOk(s) && S.Valid(s.shard) && m in s.shard.group.entries && job.id == m.data.id
    requires s'.shard == S.Reschedule(s.shard, m.id, job)
    requires job.isNew ==> m.data.isNew && s'.history.first == s.history.first
    requires forall id :: id != m.data.id ==> (id in s'.history.first <==> id in s.history.first)
    ensures NewOk(s')
  {
    S.RescheduleExact(s.shard, m, job);
    S.StreamJobIsAlone(s.shard, m);
  }

  lemma GiveUpNothingElse(s: System, c: G.Consumer)
    requires NothingElse(s) && Enabled(s, GiveUp(c)) && D.JobOk(s, At(s, c).msg.data)
    ensures NothingElse(Do(s, GiveUp(c)))
  {
  }

  lemma GiveUpKeeps(s: System, c: G.Consumer)
    requires Inv(s) && OwnInv(s) && Enabled(s, GiveUp(c)) && D.JobOk(s, At(s, c).msg.data)
    ensures Inv(Do(s, GiveUp(c)))
  {
    var r := Do(s, GiveUp(c));
    var m := At(s, c).msg;
    assert Holds(s, c);
    GiveUpNothingElse(s, c);
    RescheduledNewOk(s, r, m, SkipJob(m.data));
    C.EvolvesReflexive(s.store);
    HeardKept(s, r);
    SameHeard(s, r, c);
  }

  lemma RunIsUnbroken(heard: set<nat>, blocks: seq<Block>, t: Table, k: nat)
    requires blocks != [] && L.RunsDown(blocks, t, blocks[|blocks| - 1].height, blocks[0].height)
    requires forall b :: b in blocks ==> b.height in heard
    requires blocks[|blocks| - 1].height <= k <= blocks[0].height
    ensures k in heard
  {
    L.RunMembers(blocks, t, blocks[|blocks| - 1].height, blocks[0].height);
    assert Block(k, t[k]) in blocks;
  }

  /** The new job's beginning is the lowest block of the request that is acknowledged. */
  lemma FinishNewFirst(s: System, c: G.Consumer)
    requires FirstOk(s) && LocalOk(s, c) && D.LocalOk(s, c) && Enabled(s, Finish(c)) && At(s, c).msg.data.isNew
    ensures FirstOk(Do(s, Finish(c)))
  {
    var r := Do(s, Finish(c));
    var id, blocks := At(s, c).msg.data.id, At(s, c).phase.blocks;
    var low := blocks[|blocks| - 1].height;
    assert blocks[|blocks| - 1] in blocks;
    forall b, k | b in Heard(r, id) && low <= k <= b ensures k in Heard(r, id) {
      RunIsUnbroken(Heard(s, id), blocks, C.Union(s.store), k);
    }
  }

  lemma FinishFirst(s: System, c: G.Consumer)
    requires FirstOk(s) && NothingElse(s) && LocalOk(s, c) && D.LocalOk(s, c) && Enabled(s, Finish(c))
    requires At(s, c).msg.data.isNew ==> At(s, c).msg.data.id !in s.history.first
    ensures FirstOk(Do(s, Finish(c))) && NothingElse(Do(s, Finish(c)))
  {
    if At(s, c).msg.data.isNew {
      FinishNewFirst(s, c);
    }
  }

  lemma FinishKeeps(s: System, c: G.Consumer)
    requires Inv(s) && OwnInv(s) && D.LocalOk(s, c) && Enabled(s, Finish(c))
    ensures Inv(Do(s, Finish(c)))
  {
    var r := Do(s, Finish(c));
    var m := At(s, c).msg;
    assert Holds(s, c);
    assert LocalOk(s, c);
    FinishFirst(s, c);
    FinishNewOk(s, c);
    C.EvolvesReflexive(s.store);
    HeardKept(s, r);
    SameHeard(s, r, c);
  }

  lemma FinishNewOk(s: System, c: G.Consumer)
    requires NewOk(s) && S.Valid(s.shard) && Holds(s, c) && Enabled(s, Finish(c))
    ensures NewOk(Do(s, Finish(c)))
  {
    var m := At(s, c).msg;
    S.StreamJobIsAlone(s.shard, m);
    RescheduledNewOk(s, Do(s, Finish(c)), m, NextJob(m.data, At(s, c).phase.blocks));
  }

  // ----- Every step, every run -----

  lemma AcknowledgingStepKeeps(s: System, step: Step)
    requires Inv(s) && D.Inv(s) && OwnInv(s) && Enabled(s, step) && (step.DropJob? || step.GiveUp? || step.Finish?)
    ensures Inv(Do(s, step))
  {
    assert Holds(s, step.c);
    assert D.LocalOk(s, step.c);
    if step.DropJob? {
      DropKeeps(s, step.c);
    } else if step.GiveUp? {
      GiveUpKeeps(s, step.c);
    } else {
      FinishKeeps(s, step.c);
    }
  }

  lemma MovingStepKeeps(s: System, step: Step)
    requires Inv(s) && Enabled(s, step)
    requires step.ReadBacklog? || step.ReadNew? || step.LookUp? || step.CheckRetries? || step.HandlerFails? || step.ConsumerCrashes?
    ensures Inv(Do(s, step))
  {
    LocalStepKeeps(s, Do(s, step), step.c);
  }

  lemma ConsumerStepKeeps(s: System, step: Step)
    requires Inv(s) && D.Inv(s) && OwnInv(s) && Enabled(s, step) && D.OfConsumer(step)
    ensures Inv(Do(s, step))
  {
    if step.ReadCache? {
      ReadCacheKeeps(s, step.c);
    } else if step.ReadDb? {
      ReadDbKeeps(s, step.c);
    } else if step.Post? {
      PostKeeps(s, step.c, step.delivered);
    } else if step.DropJob? || step.GiveUp? || step.Finish? {
      AcknowledgingStepKeeps(s, step);
    } else {
      MovingStepKeeps(s, step);
    }
  }

  lemma StepKeeps(s: System, step: Step)
    requires Inv(s) && D.Inv(s) && OwnInv(s) && Enabled(s, step) && D.Disciplined(s, step)
    ensures Inv(Do(s, step))
  {
    if D.OfConsumer(step) {
      ConsumerStepKeeps(s, step);
    } else if step.Activate? {
      ActivateKeeps(s, step.ids);
    } else if step.FlushShard? {
      FlushKeeps(s);
    } else if step.StoreBatch? || step.FlusherStep? {
      StoreKeeps(s, step);
    } else {
      QuietKeeps(s, step);
    }
  }

  lemma {:induction false} RunKeeps(s: System, steps: seq<Step>)
    requires Inv(s) && D.Inv(s) && OwnInv(s) && D.DisciplinedRun(s, steps)
    ensures IsRun(s, steps) && Inv(After(s, steps))
    decreases |steps|
  {
    if steps != [] {
      StepKeeps(s, steps[0]);
      D.StepKeepsInv(s, steps[0]);
      StepKeepsOwnInv(s, steps[0]);
      RunKeeps(Do(s, steps[0]), steps[1..]);
    }
  }

  lemma InitInv(base: nat)
    ensures Inv(Init(base)) && Init(base).history.heard == map[]
  {
  }

  lemma ReachableInv(base: nat, steps: seq<Step>)
    requires 1 <= base <= C.TWO_TO_THE_53 && D.DisciplinedRun(Init(base), steps)
    ensures Inv(D.Reached(base, steps))
  {
    InitOwnInv(base);
    RunKeeps(Init(base), steps);
  }

  // ----- Runs in which no delivered first request is left unacknowledged -----

  /** The handler does not fail, and the consumer does not crash, between the delivery of a first request and its acknowledgement. */
  ghost predicate Undisturbed(s: System, step: Step) {
    step.HandlerFails? || step.ConsumerCrashes? ==>
      !(At(s, step.c).Busy? && At(s, step.c).msg.data.isNew && At(s, step.c).phase.Sent?)
  }

  ghost predicate UndisturbedRun(s: System, steps: seq<Step>)
    requires IsRun(s, steps)
    decreases |steps|
  {
    steps == [] || (Undisturbed(s, steps[0]) && UndisturbedRun(Do(s, steps[0]), steps[1..]))
  }

  /** The consumer has delivered the first request of the webhook, and the webhook has heard of nothing else. */
  ghost predicate IsSending(s: System, id: WebhookId, c: G.Consumer) {
    && At(s, c).Busy? && At(s, c).msg.data.isNew && At(s, c).msg.data.id == id
    && At(s, c).phase.Sent? && Heard(s, id) == Heights(At(s, c).phase.blocks)
  }

  /** The webhook has heard of nothing below its beginning. */
  ghost predicate BegunLowest(s: System, id: WebhookId) {
    id in s.history.first && forall h :: h in Heard(s, id) ==> s.history.first[id] <= h
  }

  ghost predicate SomeoneSends(s: System, id: WebhookId) {
    exists c :: IsSending(s, id, c)
  }

  ghost predicate OneRequest(s: System) {
    forall id :: id in s.history.heard ==> BegunLowest(s, id) || SomeoneSends(s, id)
  }

  /** While the job is new and its request is not delivered yet, the webhook has heard of nothing. */
  lemma NothingHeardYet(s: System, c: G.Consumer)
    requires OneRequest(s) && NewOk(s) && OwnInv(s)
    requires At(s, c).Busy? && At(s, c).msg.data.isNew && !At(s, c).phase.Sent?
    ensures At(s, c).msg.data.id !in s.history.heard
  {
    var id := At(s, c).msg.data.id;
    assert Holds(s, c);
    if id in s.history.heard {
      assert id !in s.history.first;
      var d :| IsSending(s, id, d);
      OtherWebhook(s, c, d);
    }
  }

  /** Whoever has delivered a first request goes on to acknowledge it. */
  lemma SenderStays(s: System, s': System, c: G.Consumer, id: WebhookId)
    requires BegunLowest(s, id) || SomeoneSends(s, id)
    requires Heard(s', id) == Heard(s, id)
    requires id in s.history.first ==> id in s'.history.first && s'.history.first[id] == s.history.first[id]
    requires forall d :: d != c ==> At(s', d) == At(s, d)
    requires !IsSending(s, id, c)
    ensures BegunLowest(s', id) || SomeoneSends(s', id)
  {
    if !BegunLowest(s, id) {
      var d :| IsSending(s, id, d);
      assert At(s', d) == At(s, d);
      assert IsSending(s', id, d);
    }
  }

  lemma SendersStay(s: System, s': System, c: G.Consumer)
    requires OneRequest(s) && s'.history.heard == s.history.heard && s'.history.first == s.history.first
    requires forall d :: d != c ==> At(s', d) == At(s, d)
    requires !(At(s, c).Busy? && At(s, c).msg.data.isNew && At(s, c).phase.Sent?)
    ensures OneRequest(s')
  {
    forall id | id in s'.history.heard ensures BegunLowest(s', id) || SomeoneSends(s', id) {
      SenderStays(s, s', c, id);
    }
  }

  lemma PostKeepsOne(s: System, c: G.Consumer)
    requires OneRequest(s) && NewOk(s) && OwnInv(s) && Enabled(s, Post(c, true)) && At(s, c).msg.data.isNew
    ensures OneRequest(Do(s, Post(c, true)))
  {
    var r := Do(s, Post(c, true));
    var job := At(s, c).msg.data;
    NothingHeardYet(s, c);
    forall id | id in r.history.heard ensures BegunLowest(r, id) || SomeoneSends(r, id) {
      if id == job.id {
        assert Heard(r, id) == Heights(At(s, c).phase.blocks);
        assert IsSending(r, id, c);
      } else {
        SenderStays(s, r, c, id);
      }
    }
  }

  /** The acknowledged first request goes down to where the established job began. */
  lemma AcknowledgedLowest(s: System, c: G.Consumer)
    requires OneRequest(s) && NewOk(s) && OwnInv(s) && D.LocalOk(s, c) && LocalOk(s, c)
    requires Enabled(s, Finish(c)) && At(s, c).msg.data.isNew
    ensures BegunLowest(Do(s, Finish(c)), At(s, c).msg.data.id)
  {
    var job, blocks := At(s, c).msg.data, At(s, c).phase.blocks;
    assert Holds(s, c);
    assert !BegunLowest(s, job.id);
    assert blocks[0].height in Heard(s, job.id) by {
      assert blocks[0] in blocks;
    }
    var d :| IsSending(s, job.id, d);
    if d != c {
      OtherWebhook(s, c, d);
    }
    L.RunMembers(blocks, C.Union(s.store), blocks[|blocks| - 1].height, blocks[0].height);
    assert Heard(Do(s, Finish(c)), job.id) == Heights(blocks);
  }

  lemma FinishKeepsOne(s: System, c: G.Consumer)
    requires OneRequest(s) && NewOk(s) && OwnInv(s) && D.LocalOk(s, c) && LocalOk(s, c)
    requires Enabled(s, Finish(c)) && At(s, c).msg.data.isNew
    ensures OneRequest(Do(s, Finish(c)))
  {
    var r := Do(s, Finish(c));
    AcknowledgedLowest(s, c);
    forall id | id in r.history.heard ensures BegunLowest(r, id) || SomeoneSends(r, id) {
      if id != At(s, c).msg.data.id {
        SenderStays(s, r, c, id);
      }
    }
  }

  lemma DropKeepsOne(s: System, c: G.Consumer)
    requires OneRequest(s) && Enabled(s, DropJob(c))
    ensures OneRequest(Do(s, DropJob(c)))
  {
    var r := Do(s, DropJob(c));
    forall id | id in r.history.heard ensures BegunLowest(r, id) || SomeoneSends(r, id) {
      SenderStays(s, r, c, id);
    }
  }

  lemma WorldKeepsOne(s: System, s': System)
    requires OneRequest(s) && s'.history == s.history && s'.locals == s.locals
    ensures OneRequest(s')
  {
    forall id | id in s'.history.heard ensures BegunLowest(s', id) || SomeoneSends(s', id) {
      assert Heard(s', id) == Heard(s, id);
      if !BegunLowest(s, id) {
        var d :| IsSending(s, id, d);
        assert At(s', d) == At(s, d);
        assert IsSending(s', id, d);
      }
    }
  }

  lemma WorldStepKeepsOne(s: System, step: Step)
    requires OneRequest(s) && Enabled(s, step) && !D.OfConsumer(step)
    ensures OneRequest(Do(s, step))
  {
    WorldKeepsOne(s, Do(s, step));
  }

  lemma ConsumerStepKeepsOne(s: System, step: Step)
    requires OneRequest(s) && Enabled(s, step) && D.OfConsumer(step) && Undisturbed(s, step) && !step.DropJob?
    requires step.Finish? || (step.Post? && step.delivered) ==> !At(s, step.c).msg.data.isNew
    ensures OneRequest(Do(s, step))
  {
    SendersStay(s, Do(s, step), step.c);
  }

  lemma StepKeepsOne(s: System, step: Step)
    requires OneRequest(s) && Inv(s) && D.Inv(s) && OwnInv(s) && Enabled(s, step) && Undisturbed(s, step)
    ensures OneRequest(Do(s, step))
  {
    if !D.OfConsumer(step) {
      WorldStepKeepsOne(s, step);
    } else if step.DropJob? {
      DropKeepsOne(s, step.c);
    } else if step.Post? && step.delivered && At(s, step.c).msg.data.isNew {
      PostKeepsOne(s, step.c);
    } else if step.Finish? && At(s, step.c).msg.data.isNew {
      assert D.LocalOk(s, step.c) && LocalOk(s, step.c);
      FinishKeepsOne(s, step.c);
    } else {
      ConsumerStepKeepsOne(s, step);
    }
  }

  lemma {:induction false} RunKeepsOne(s: System, steps: seq<Step>)
    requires OneRequest(s) && Inv(s) && D.Inv(s) && OwnInv(s)
    requires D.DisciplinedRun(s, steps) && IsRun(s, steps) && UndisturbedRun(s, steps)
    ensures OneRequest(After(s, steps))
    decreases |steps|
  {
    if steps != [] {
      StepKeepsOne(s, steps[0]);
      StepKeeps(s, steps[0]);
      D.StepKeepsInv(s, steps[0]);
      StepKeepsOwnInv(s, steps[0]);
      RunKeepsOne(Do(s, steps[0]), steps[1..]);
    }
  }
}
