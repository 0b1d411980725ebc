/** What the feed promises its webhooks. */
module SchedulerPromises {
  // Over every run: no block behind the beginning of a webhook's job is passed over, the relay never finds nothing to
  // send, and no job sleeps while blocks for it pile up.

  import opened PendingSet
  import opened BlockTables
  import opened Scheduler
  import opened SchedulerOwnership
  import opened SchedulerDelivery
  import B = SchedulerBeginning
  import C = CachedStore
  import G = RedisGroup
  import L = LatestBlocks
  import S = WebhookShard

  /**
   No block is silently lost. In every state of every run, each established job stands at a height such that
   every height from the lowest block of the webhook's first acknowledged request up to it was POSTed to the
   webhook, as the very document that is stored, or was given up at the retry limit.
   */
  lemma NoBlockIsPassedOver(base: nat, steps: seq<Step>, job: Job)
    requires 1 <= base <= C.TWO_TO_THE_53 && DisciplinedRun(Init(base), steps)
    requires var s := Reached(base, steps); Live(s.shard, job) && !job.isNew
    ensures var s := Reached(base, steps);
            && job.id in s.history.first
            && base <= s.history.first[job.id] < job.height <= s.tip
            && (forall h :: s.history.first[job.id] <= h < job.height ==> Done(s, job.id, h))
  {
    ReachableInv(base, steps);
  }

  /**
   The relay's panic is out of reach: whenever the blocks of a request have been read there is at least one,
   and they are stored blocks without a gap.
   */
  lemma ThereIsAlwaysSomethingToSend(base: nat, steps: seq<Step>, c: G.Consumer)
    requires 1 <= base <= C.TWO_TO_THE_53 && DisciplinedRun(Init(base), steps)
    requires var s := Reached(base, steps); At(s, c).Busy? && At(s, c).phase.Sending?
    ensures var s := Reached(base, steps); GoodBlocks(s, At(s, c).msg.data, At(s, c).phase.blocks)
    ensures At(Reached(base, steps), c).phase.blocks != []
  {
    ReachableInv(base, steps);
    assert LocalOk(Reached(base, steps), c);
  }

  /**
   Nothing that could be sent is held back: a request for an established job has as many blocks as the webhook takes at
   once, or all that were stored when the cache was read.
   */
  lemma RequestIsFull(base: nat, steps: seq<Step>, c: G.Consumer)
    requires 1 <= base <= C.TWO_TO_THE_53 && DisciplinedRun(Init(base), steps)
    requires var s := Reached(base, steps); Enabled(s, ReadDb(c)) && !At(s, c).msg.data.isNew
    ensures var s := Reached(base, steps);
            var p, blocks := At(s, c).phase, At(Do(s, ReadDb(c)), c).phase.blocks;
            || |blocks| >= p.row.maxBlocks
            || |blocks| >= p.snapshotTip - At(s, c).msg.data.height
  {
    ReachableInv(base, steps);
    var s := Reached(base, steps);
    assert LocalOk(s, c);
    var p, job := At(s, c).phase, At(s, c).msg.data;
    EstablishedIsFull(p.snapshot, s.store, s.base, p.snapshotTip, s.tip, job, p.row);
  }

  lemma EstablishedIsFull(snap: C.Store, store: C.Store, base: nat, snapTip: nat, tip: nat, job: Job, row: Webhook)
    requires TwoReads(snap, store, base, snapTip, tip) && RowOk(row) && !job.isNew
    requires base <= job.height < snapTip <= C.TWO_TO_THE_53
    ensures var blocks := BlocksToSend(CachedBlocks(snap, job, row), store.db, job, row);
            |blocks| >= row.maxBlocks || |blocks| >= snapTip - job.height
  {
    var hi := job.height + row.maxBlocks - 1;
    RequestRange(job, row);
    var r := RequestBlocks(job, row, snap, store.db, hi);
    C.GetBlocksSandwich(snap, store, job.height, hi);
    RangeHasAll(C.Union(snap), base, snapTip, job.height, hi);
  }

  lemma RangeHasAll(t: Table, base: nat, tip: nat, lo: nat, hi: nat)
    requires L.Contiguous(t, base, tip) && base <= lo < tip && lo <= hi
    ensures |Range(t, lo, hi)| >= hi - lo + 1 || |Range(t, lo, hi)| >= tip - lo
  {
    if hi < tip {
      RangeLength(t, lo, hi);
    } else {
      RangeLength(t, lo, tip - 1);
      RangeSplit(t, lo, tip, hi);
    }
  }

  /**
   No lost wake-up: in every state, every pending job that is not freshly activated waits for a height that the
   shard has not been flushed past; and once the router has finished its batch, an established job that waits
   lacks at most the one latest block.
   */
  lemma NoLostWakeUp(base: nat, steps: seq<Step>)
    requires 1 <= base <= C.TWO_TO_THE_53 && DisciplinedRun(Init(base), steps)
    ensures var s := Reached(base, steps);
            && (forall e :: e in s.shard.pending && !S.Fresh(e.job) ==>
                  s.shard.latest.None? || e.score >= s.shard.latest.value)
            && (s.router.phase.RouterIdle? ==>
                  forall e :: e in s.shard.pending && !e.job.isNew ==> s.tip - 1 <= e.job.height <= s.tip)
  {
    ReachableInv(base, steps);
    var s := Reached(base, steps);
    forall e | e in s.shard.pending && !e.job.isNew && s.router.phase.RouterIdle?
      ensures s.tip - 1 <= e.job.height <= s.tip
    {
      assert JobOk(s, e.job);
    }
  }

  // ----- From the first delivered request on -----

  /** Every height from one that the new job has delivered up to the established job is done. */
  ghost predicate DoneSinceFirstDelivery(s: System, job: Job) {
    forall h, k :: h in B.Heard(s, job.id) && h <= k < job.height ==> Done(s, job.id, k)
  }

  ghost predicate Unbroken(heights: set<nat>) {
    forall a, b, k :: a in heights && b in heights && a <= k <= b ==> k in heights
  }

  lemma LiveHasBegun(s: System, job: Job)
    requires Inv(s) && Live(s.shard, job) && !job.isNew
    ensures JobOk(s, job) && job.id in s.history.first
  {
  }

  lemma DoneWhenUnbroken(s: System, job: Job)
    requires Inv(s) && B.Inv(s) && Live(s.shard, job) && !job.isNew && Unbroken(B.Heard(s, job.id))
    ensures DoneSinceFirstDelivery(s, job)
  {
    LiveHasBegun(s, job);
    var first := s.history.first[job.id];
    forall h, k | h in B.Heard(s, job.id) && h <= k < job.height ensures Done(s, job.id, k) {
      if k < first {
        assert first in B.Heard(s, job.id);
        assert k in B.Heard(s, job.id);
        assert B.Delivered(s, job.id, k);
      }
    }
  }

  lemma UnbrokenWhenDone(s: System, job: Job)
    requires Inv(s) && B.Inv(s) && Live(s.shard, job) && !job.isNew && job.id !in s.history.dropped
    requires DoneSinceFirstDelivery(s, job)
    ensures Unbroken(B.Heard(s, job.id))
  {
    LiveHasBegun(s, job);
    var first := s.history.first[job.id];
    forall a, b, k | a in B.Heard(s, job.id) && b in B.Heard(s, job.id) && a <= k <= b ensures k in B.Heard(s, job.id) {
      if k < first {
        assert Done(s, job.id, k);
      }
    }
  }

  /**
   In every state of every disciplined run: every height from the first delivered request of a webhook up to its
   established job is done if the requests that its new job has delivered leave no gap between them; and for a webhook
   that was not dropped before, only if.
   */
  lemma DoneSinceFirstDeliveryIff(base: nat, steps: seq<Step>, job: Job)
    requires 1 <= base <= C.TWO_TO_THE_53 && DisciplinedRun(Init(base), steps)
    requires var s := Reached(base, steps); Live(s.shard, job) && !job.isNew
    ensures var s := Reached(base, steps);
            && B.Heard(s, job.id) != {}
            && (Unbroken(B.Heard(s, job.id)) ==> DoneSinceFirstDelivery(s, job))
            && (job.id !in s.history.dropped ==>
                  (DoneSinceFirstDelivery(s, job) <==> Unbroken(B.Heard(s, job.id))))
  {
    ReachableInv(base, steps);
    B.ReachableInv(base, steps);
    var s := Reached(base, steps);
    LiveHasBegun(s, job);
    assert s.history.first[job.id] in B.Heard(s, job.id);
    if Unbroken(B.Heard(s, job.id)) {
      DoneWhenUnbroken(s, job);
    } else if job.id !in s.history.dropped && DoneSinceFirstDelivery(s, job) {
      UnbrokenWhenDone(s, job);
    }
  }

  /**
   When a first request is delivered once more, the requests leave no gap exactly when the new one begins, with its
   lowest block, no more than one height above the highest block delivered before.
   */
  lemma RepeatLeavesNoGapIff(base: nat, steps: seq<Step>, c: G.Consumer, hi: nat)
    requires 1 <= base <= C.TWO_TO_THE_53 && DisciplinedRun(Init(base), steps)
    requires var s := Reached(base, steps); Enabled(s, Post(c, true)) && At(s, c).msg.data.isNew
    requires var s := Reached(base, steps);
             var heard := B.Heard(s, At(s, c).msg.data.id);
             hi in heard && (forall h :: h in heard ==> h <= hi) && Unbroken(heard)
    ensures var s := Reached(base, steps);
            var blocks := At(s, c).phase.blocks;
            Unbroken(B.Heard(Do(s, Post(c, true)), At(s, c).msg.data.id)) <==> blocks[|blocks| - 1].height <= hi + 1
  {
    ReachableInv(base, steps);
    B.ReachableInv(base, steps);
    var s := Reached(base, steps);
    assert LocalOk(s, c);
    assert B.LocalOk(s, c);
    RepeatAt(s, c, hi);
  }

  lemma RepeatAt(s: System, c: G.Consumer, hi: nat)
    requires LocalOk(s, c) && B.LocalOk(s, c) && Enabled(s, Post(c, true)) && At(s, c).msg.data.isNew
    requires var heard := B.Heard(s, At(s, c).msg.data.id);
             hi in heard && (forall h :: h in heard ==> h <= hi) && Unbroken(heard)
    ensures var blocks := At(s, c).phase.blocks;
            Unbroken(B.Heard(Do(s, Post(c, true)), At(s, c).msg.data.id)) <==> blocks[|blocks| - 1].height <= hi + 1
  {
    var id, blocks := At(s, c).msg.data.id, At(s, c).phase.blocks;
    var heard := B.Heard(s, id);
    assert B.Heard(Do(s, Post(c, true)), id) == heard + Heights(blocks);
    L.RunHeights(blocks, C.Union(s.store), blocks[|blocks| - 1].height, blocks[0].height);
    JoinedUnbrokenIff(heard, Heights(blocks), hi, blocks[|blocks| - 1].height, blocks[0].height);
  }

  lemma JoinedUnbrokenIff(a: set<nat>, b: set<nat>, hi: nat, lo': nat, hi': nat)
    requires Unbroken(a) && hi in a && (forall h :: h in a ==> h <= hi) && hi <= hi'
    requires lo' <= hi' && forall h :: h in b <==> lo' <= h <= hi'
    ensures Unbroken(a + b) <==> lo' <= hi + 1
  {
    if lo' > hi + 1 {
      assert hi in a + b && lo' in a + b && hi + 1 !in a + b;
    }
  }

  /** A request for the n latest blocks reaches down to what was delivered before when at most n blocks are newer. */
  lemma FewNewBlocksIff(t: Table, base: nat, tip: nat, n: nat, hi: nat)
    requires L.Contiguous(t, base, tip) && base <= hi < tip && n > 0
    ensures var blocks := Latest(t, n);
            blocks != [] && (blocks[|blocks| - 1].height <= hi + 1 <==> tip - 1 - hi <= n)
  {
    L.LatestRun(t, base, tip, n);
  }

  /**
   In every disciplined run in which no handler fails and no consumer crashes between the delivery of a first request
   and its acknowledgement, every height from the lowest block of the first delivered request up to the established
   job is done.
   */
  lemma NoBlockIsPassedOverFromTheFirst(base: nat, steps: seq<Step>, job: Job)
    requires 1 <= base <= C.TWO_TO_THE_53 && DisciplinedRun(Init(base), steps) && IsRun(Init(base), steps)
    requires B.UndisturbedRun(Init(base), steps)
    requires var s := Reached(base, steps); Live(s.shard, job) && !job.isNew
    ensures var s := Reached(base, steps);
            && B.Heard(s, job.id) != {}
            && (forall h, k :: h in B.Heard(s, job.id) && h <= k < job.height ==> Done(s, job.id, k))
  {
    ReachableInv(base, steps);
    B.ReachableInv(base, steps);
    UndisturbedOne(base, steps);
    BegunIsLowest(Reached(base, steps), job);
  }

  lemma UndisturbedOne(base: nat, steps: seq<Step>)
    requires 1 <= base <= C.TWO_TO_THE_53 && DisciplinedRun(Init(base), steps) && IsRun(Init(base), steps)
    requires B.UndisturbedRun(Init(base), steps)
    ensures B.OneRequest(Reached(base, steps))
  {
    InitOwnInv(base);
    InitInv(base);
    B.InitInv(base);
    B.RunKeepsOne(Init(base), steps);
  }

  lemma BegunIsLowest(s: System, job: Job)
    requires Inv(s) && B.Inv(s) && OwnInv(s) && B.OneRequest(s) && Live(s.shard, job) && !job.isNew
    ensures B.Heard(s, job.id) != {} && DoneSinceFirstDelivery(s, job)
  {
    LiveHasBegun(s, job);
    assert s.history.first[job.id] in B.Heard(s, job.id);
    forall c ensures !B.IsSending(s, job.id, c) {
      NobodySends(s, job, c);
    }
    assert B.BegunLowest(s, job.id);
  }

  lemma NobodySends(s: System, job: Job, c: G.Consumer)
    requires B.Inv(s) && OwnInv(s) && job.id in s.history.first
    ensures !B.IsSending(s, job.id, c)
  {
    assert Holds(s, c);
  }
}
