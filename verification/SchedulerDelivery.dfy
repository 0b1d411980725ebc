/** The invariant behind the feed's promises. */
module SchedulerDelivery {
  // It is kept by every step of every run in which the router does not store a replayed batch below what a flush cycle is
  // about to delete: the store is consistent, every job is covered up to its height, and every request that is being put
  // together is what the webhook needs next.

  import opened Wrappers
  import opened PendingSet
  import opened BlockTables
  import opened Scheduler
  import opened SchedulerOwnership
  import S = WebhookShard
  import G = RedisGroup
  import C = CachedStore
  import L = LatestBlocks

  /**
   The only step with a hypothesis: storing a batch again that is stored already, while a flush cycle is under way.
   Storing a batch for the first time needs none.
   */
  ghost predicate Disciplined(s: System, step: Step) {
    step.StoreBatch? && s.tip == s.router.next ==> C.SafeForFlusher(s.store, s.router.batch)
  }

  // ----- The store and the router -----

  ghost predicate StoreOk(s: System) {
    && C.Inv(s.store)
    && L.Contiguous(C.Union(s.store), s.base, s.tip)
    && 1 <= s.base && s.tip <= C.TWO_TO_THE_53
  }

  ghost predicate RouterOk(s: System) {
    var r := s.router;
    && s.base + |r.batch| <= r.next <= C.TWO_TO_THE_53
    && (forall i :: 0 <= i < |r.batch| ==> r.batch[i].height == r.next - |r.batch| + i)
    && (r.phase.RouterIdle? <==> r.batch == [])
    && (if r.phase.Taken? then s.tip == r.next || s.tip == r.next - |r.batch| else s.tip == r.next)
    && (s.tip == r.next ==> Within(r.batch, C.Union(s.store)))
  }

  ghost predicate LatestOk(s: System) {
    && (s.shard.latest.Some? ==> s.base <= s.shard.latest.value < s.tip)
    && (s.shard.group.entries != [] ==> s.shard.latest.Some?)
    && (s.router.phase.Flushed? ==> s.shard.latest == Some(s.router.next - 1))
    && (s.router.phase.RouterIdle? && s.base < s.tip ==> s.shard.latest == Some(s.tip - 1))
    && S.Awaits(s.shard)
  }

  // ----- The jobs -----

  /** The stored block at a height was POSTed to the webhook, or the height was given up at the retry limit. */
  ghost predicate Done(s: System, id: WebhookId, h: nat) {
    || (id, h) in s.history.skipped
    || (h in C.Union(s.store) && (id, Block(h, C.Union(s.store)[h])) in s.history.posted)
  }

  /** Nothing between the lowest block of the first acknowledged request and a height was passed over. */
  ghost predicate Covered(s: System, id: WebhookId, h: nat) {
    && id in s.history.first
    && s.base <= s.history.first[id] < h
    && forall k :: s.history.first[id] <= k < h ==> Done(s, id, k)
  }

  ghost predicate JobOk(s: System, job: Job) {
    !job.isNew ==> s.base < job.height <= s.tip && Covered(s, job.id, job.height)
  }

  ghost predicate JobsOk(s: System) {
    && (forall m :: m in s.shard.group.entries ==> JobOk(s, m.data))
    && (forall m :: m in s.shard.group.entries && !m.data.isNew ==>
          s.shard.latest.Some? && m.data.height < s.shard.latest.value)
    && (forall e :: e in s.shard.pending ==> JobOk(s, e.job))
  }

  // ----- The consumers -----

  ghost predicate RowOk(row: Webhook) {
    1 <= row.maxBlocks <= MAX_INT32
  }

  /**
   The blocks of a request are stored blocks and leave no gap: from the job's height upwards,
   or for a new job downwards from some height.
   */
  ghost predicate GoodRequest(u: Table, base: nat, job: Job, blocks: seq<Block>) {
    && blocks != []
    && (if job.isNew
        then blocks[|blocks| - 1].height >= base && L.RunsDown(blocks, u, blocks[|blocks| - 1].height, blocks[0].height)
        else L.RunsUp(blocks, u, job.height))
  }

  ghost predicate GoodBlocks(s: System, job: Job, blocks: seq<Block>) {
    GoodRequest(C.Union(s.store), s.base, job, blocks)
  }

  ghost predicate HalfReadOk(s: System, job: Job, p: Phase)
    requires p.HalfRead?
  {
    && RowOk(p.row)
    && C.Inv(p.snapshot) && C.Bounded(p.snapshot) && C.Evolves(p.snapshot, s.store)
    && L.Contiguous(C.Union(p.snapshot), s.base, p.snapshotTip) && s.base < p.snapshotTip
    && p.cached == CachedBlocks(p.snapshot, job, p.row)
    && (!job.isNew ==> s.base <= job.height < p.snapshotTip <= C.TWO_TO_THE_53)
  }

  ghost predicate PhaseOk(s: System, job: Job, p: Phase) {
    match p
    case Received => true
    case Missing => true
    case Checking(row) => RowOk(row)
    case GivingUp => true
    case Reading(row) => RowOk(row)
    case HalfRead(_, _, _, _) => HalfReadOk(s, job, p)
    case Sending(blocks) => GoodBlocks(s, job, blocks)
    case Sent(blocks) => GoodBlocks(s, job, blocks) && forall b :: b in blocks ==> (job.id, b) in s.history.posted
  }

  ghost predicate LocalOk(s: System, c: G.Consumer) {
    At(s, c).Busy? ==> PhaseOk(s, At(s, c).msg.data, At(s, c).phase)
  }

  /** Whatever was POSTed is a stored block. */
  ghost predicate PostedOk(s: System) {
    forall id, b :: (id, b) in s.history.posted ==> b.height in C.Union(s.store) && C.Union(s.store)[b.height] == b.data
  }

  ghost predicate Inv(s: System) {
    && StoreOk(s) && RouterOk(s) && LatestOk(s) && JobsOk(s) && PostedOk(s)
    && (forall id :: id in s.rows ==> RowOk(s.rows[id]))
    && (forall c :: LocalOk(s, c))
  }

  // ----- What only grows -----

  ghost predicate Grows(s: System, s': System) {
    && s'.base == s.base && s.tip <= s'.tip
    && C.Evolves(s.store, s'.store)
    && s.history.posted <= s'.history.posted
    && s.history.skipped <= s'.history.skipped
  }

  lemma DoneKept(s: System, s': System, id: WebhookId, h: nat)
    requires Grows(s, s') && Done(s, id, h)
    ensures Done(s', id, h)
  {
  }

  lemma JobKept(s: System, s': System, job: Job)
    requires Grows(s, s') && JobOk(s, job)
    requires job.id in s.history.first ==> job.id in s'.history.first && s'.history.first[job.id] == s.history.first[job.id]
    ensures JobOk(s', job)
  {
    if !job.isNew {
      forall k | s'.history.first[job.id] <= k < job.height ensures Done(s', job.id, k) {
        DoneKept(s, s', job.id, k);
      }
    }
  }

  lemma BlocksKept(s: System, s': System, job: Job, blocks: seq<Block>)
    requires Grows(s, s') && GoodBlocks(s, job, blocks)
    ensures GoodBlocks(s', job, blocks)
  {
    if job.isNew {
      L.RunKept(blocks, s.store, s'.store, blocks[|blocks| - 1].height, blocks[0].height);
    }
  }

  lemma PhaseKept(s: System, s': System, job: Job, p: Phase)
    requires Grows(s, s') && PhaseOk(s, job, p)
    ensures PhaseOk(s', job, p)
  {
    match p
    case HalfRead(_, _, snapshot, _) => C.EvolvesTransitive(snapshot, s.store, s'.store);
    case Sending(blocks) => BlocksKept(s, s', job, blocks);
    case Sent(blocks) => BlocksKept(s, s', job, blocks);
    case _ =>
  }

  lemma LocalsKept(s: System, s': System, c: G.Consumer)
    requires Grows(s, s') && forall d :: LocalOk(s, d)
    requires forall d :: d != c ==> At(s', d) == At(s, d)
    requires LocalOk(s', c)
    ensures forall d :: LocalOk(s', d)
  {
    forall d ensures LocalOk(s', d) {
      if d != c && At(s', d).Busy? {
        assert At(s', d) == At(s, d);
        assert LocalOk(s, d);
        PhaseKept(s, s', At(s, d).msg.data, At(s, d).phase);
      }
    }
  }

  lemma AllLocalsKept(s: System, s': System)
    requires Grows(s, s') && s'.locals == s.locals && forall d :: LocalOk(s, d)
    ensures forall d :: LocalOk(s', d)
  {
    forall d ensures LocalOk(s', d) {
      assert At(s', d) == At(s, d);
      assert LocalOk(s, d);
      if At(s, d).Busy? {
        PhaseKept(s, s', At(s, d).msg.data, At(s, d).phase);
      }
    }
  }

  lemma GrowsReflexive(s: System, s': System)
    requires s'.base == s.base && s'.tip == s.tip && s'.store == s.store
    requires s.history.posted <= s'.history.posted && s.history.skipped <= s'.history.skipped
    ensures Grows(s, s')
  {
    C.EvolvesReflexive(s.store);
  }

  /** Jobs stay in order when the stream, the pending set and the history of their beginnings stay. */
  lemma JobsKept(s: System, s': System)
    requires Grows(s, s') && JobsOk(s)
    requires s'.shard.group.entries == s.shard.group.entries && s'.shard.pending == s.shard.pending
    requires s'.shard.latest == s.shard.latest && s'.history.first == s.history.first
    ensures JobsOk(s')
  {
    forall m | m in s'.shard.group.entries ensures JobOk(s', m.data) {
      JobKept(s, s', m.data);
    }
    forall e | e in s'.shard.pending ensures JobOk(s', e.job) {
      JobKept(s, s', e.job);
    }
  }

  // ----- The store's steps -----

  lemma BatchHeights(s: System)
    requires RouterOk(s)
    ensures forall h :: h in Heights(s.router.batch) <==> s.router.next - |s.router.batch| <= h < s.router.next
    ensures forall b :: b in s.router.batch ==> b.height in Heights(s.router.batch)
    ensures forall b, b' :: b in s.router.batch && b' in s.router.batch && b.height == b'.height ==> b == b'
  {
    var batch := s.router.batch;
    forall h: nat | s.router.next - |batch| <= h < s.router.next ensures h in Heights(batch) {
      assert batch[h - (s.router.next - |batch|)] in batch;
    }
  }

  lemma BatchInOrder(s: System)
    requires StoreOk(s) && RouterOk(s) && s.router.phase.Taken?
    ensures C.InOrder(s.store, s.router.batch)
  {
    BatchHeights(s);
    var u := C.Union(s.store);
    if s.tip == s.router.next {
      forall d | d in s.store.db ensures d < s.router.next {
        assert d in u;
      }
    } else {
      forall d | d in s.store.db ensures d < s.tip {
        assert d in u;
      }
    }
  }

  /** A batch that is stored for the first time lies above everything stored, whatever the flusher is doing. */
  lemma FirstStoreIsSafe(s: System)
    requires StoreOk(s) && RouterOk(s) && s.router.phase.Taken? && s.tip != s.router.next
    ensures C.SafeForFlusher(s.store, s.router.batch)
  {
    forall b, f | b in s.router.batch && f in C.Held(s.store) ensures b.height > f.height {
      assert f.height in C.Union(s.store);
    }
  }

  lemma StoredUnion(s: System)
    requires StoreOk(s) && RouterOk(s) && s.router.phase.Taken?
    ensures forall h :: h in C.Union(Do(s, StoreBatch).store) <==> s.base <= h < s.router.next
    ensures Within(s.router.batch, C.Union(Do(s, StoreBatch).store))
  {
    BatchInOrder(s);
    BatchHeights(s);
    C.PutCache(s.store, s.router.batch);
    var r := Do(s, StoreBatch);
    forall h ensures h in C.Union(r.store) <==> s.base <= h < s.router.next {
      assert h in C.Union(r.store) <==> h in C.Union(s.store) || h in Heights(s.router.batch);
    }
  }

  lemma StoreBatchStore(s: System)
    requires StoreOk(s) && RouterOk(s) && s.router.phase.Taken? && C.SafeForFlusher(s.store, s.router.batch)
    ensures var r := Do(s, StoreBatch);
            StoreOk(r) && RouterOk(r) && Grows(s, r)
  {
    BatchInOrder(s);
    StoredUnion(s);
    C.StepKeepsInv(s.store, C.Put(s.router.batch));
  }

  lemma StoreBatchKeeps(s: System)
    requires Inv(s) && Enabled(s, StoreBatch) && Disciplined(s, StoreBatch)
    ensures Inv(Do(s, StoreBatch))
  {
    if s.tip != s.router.next {
      FirstStoreIsSafe(s);
    }
    StoreBatchStore(s);
    JobsKept(s, Do(s, StoreBatch));
    AllLocalsKept(s, Do(s, StoreBatch));
  }

  lemma FlusherStore(s: System, step: C.StoreStep)
    requires StoreOk(s) && Enabled(s, FlusherStep(step))
    ensures C.Union(C.Do(s.store, step)) == C.Union(s.store)
    ensures StoreOk(Do(s, FlusherStep(step))) && Grows(s, Do(s, FlusherStep(step)))
  {
    C.StepKeepsInv(s.store, step);
    if step.Insert? {
      C.InsertKeepsInv(s.store);
    } else if step.Delete? {
      C.DeleteKeepsInv(s.store);
    }
  }

  lemma FlusherKeeps(s: System, step: C.StoreStep)
    requires Inv(s) && Enabled(s, FlusherStep(step))
    ensures Inv(Do(s, FlusherStep(step)))
  {
    FlusherStore(s, step);
    JobsKept(s, Do(s, FlusherStep(step)));
    AllLocalsKept(s, Do(s, FlusherStep(step)));
  }

  // ----- The router's other steps and the activation -----

  lemma RouterKeeps(s: System, step: Step)
    requires Inv(s) && Enabled(s, step) && (step.TakeBatch? || step.AckBatch? || step.RouterFails?)
    ensures Inv(Do(s, step))
  {
    var r := Do(s, step);
    GrowsReflexive(s, r);
    JobsKept(s, r);
    AllLocalsKept(s, r);
  }

  lemma RowsKeep(s: System, step: Step)
    requires Inv(s) && Enabled(s, step) && (step.SetRow? || step.DeleteRow?)
    ensures Inv(Do(s, step))
  {
    var r := Do(s, step);
    GrowsReflexive(s, r);
    JobsKept(s, r);
    AllLocalsKept(s, r);
  }

  lemma FlushLatest(s: System)
    requires LatestOk(s) && RouterOk(s) && S.Valid(s.shard) && Enabled(s, FlushShard)
    ensures LatestOk(Do(s, FlushShard))
  {
    var height := s.router.next - 1;
    S.AwaitsKept(s.shard, height, [], G.Msg(0, S.FreshJob(0)), S.FreshJob(0));
  }

  lemma FlushJobs(s: System)
    requires JobsOk(s) && LatestOk(s) && RouterOk(s) && S.Valid(s.shard) && Enabled(s, FlushShard)
    ensures JobsOk(Do(s, FlushShard))
  {
    var height := s.router.next - 1;
    S.FlushExact(s.shard, height);
    var r := Do(s, FlushShard);
    GrowsReflexive(s, r);
    forall m | m in r.shard.group.entries
      ensures JobOk(r, m.data)
      ensures !m.data.isNew ==> m.data.height < height
    {
      S.FlushSources(s.shard, height, m);
      JobKept(s, r, m.data);
    }
    forall e | e in r.shard.pending ensures JobOk(r, e.job) {
      JobKept(s, r, e.job);
    }
  }

  lemma FlushKeepsInv(s: System)
    requires Inv(s) && S.Valid(s.shard) && Enabled(s, FlushShard)
    ensures Inv(Do(s, FlushShard))
  {
    FlushJobs(s);
    FlushLatest(s);
    GrowsReflexive(s, Do(s, FlushShard));
    AllLocalsKept(s, Do(s, FlushShard));
  }

  lemma ActivateParts(s: System, ids: seq<WebhookId>)
    requires JobsOk(s) && LatestOk(s) && S.Valid(s.shard)
    ensures LatestOk(Do(s, Activate(ids))) && JobsOk(Do(s, Activate(ids)))
  {
    S.ActivateExact(s.shard, ids);
    S.AwaitsKept(s.shard, 0, ids, G.Msg(0, S.FreshJob(0)), S.FreshJob(0));
    var r := Do(s, Activate(ids));
    GrowsReflexive(s, r);
    forall m | m in r.shard.group.entries ensures JobOk(r, m.data) {
      JobKept(s, r, m.data);
    }
    forall e | e in r.shard.pending ensures JobOk(r, e.job) {
      if e in s.shard.pending {
        JobKept(s, r, e.job);
      }
    }
  }

  lemma ActivateKeepsInv(s: System, ids: seq<WebhookId>)
    requires Inv(s) && S.Valid(s.shard)
    ensures Inv(Do(s, Activate(ids)))
  {
    ActivateParts(s, ids);
    GrowsReflexive(s, Do(s, Activate(ids)));
    AllLocalsKept(s, Do(s, Activate(ids)));
  }

  // ----- The consumers' steps -----

  /** Steps that change one consumer and at most who has been delivered what. */
  lemma LocalStepKeeps(s: System, s': System, c: G.Consumer)
    requires Inv(s)
    requires s'.shard == s.shard.(group := s'.shard.group) && s'.shard.group.entries == s.shard.group.entries
    requires s'.store == s.store && s'.router == s.router && s'.rows == s.rows
    requires s'.base == s.base && s'.tip == s.tip
    requires s'.history.first == s.history.first && s'.history.skipped == s.history.skipped
    requires s.history.posted <= s'.history.posted && PostedOk(s')
    requires forall d :: d != c ==> At(s', d) == At(s, d)
    requires LocalOk(s', c)
    ensures Inv(s')
  {
    GrowsReflexive(s, s');
    JobsKept(s, s');
    LocalsKept(s, s', c);
  }

  lemma LookUpKeeps(s: System, c: G.Consumer)
    requires Inv(s) && Enabled(s, LookUp(c))
    ensures Inv(Do(s, LookUp(c)))
  {
    LocalStepKeeps(s, Do(s, LookUp(c)), c);
  }

  lemma CheckRetriesKeeps(s: System, c: G.Consumer)
    requires Inv(s) && Enabled(s, CheckRetries(c))
    ensures Inv(Do(s, CheckRetries(c)))
  {
    assert LocalOk(s, c);
    LocalStepKeeps(s, Do(s, CheckRetries(c)), c);
  }

  lemma ReadCacheKeeps(s: System, c: G.Consumer)
    requires Inv(s) && OwnInv(s) && Enabled(s, ReadCache(c))
    ensures Inv(Do(s, ReadCache(c)))
  {
    assert LocalOk(s, c);
    assert Holds(s, c);
    C.EvolvesReflexive(s.store);
    assert At(s, c).msg in s.shard.group.entries;
    LocalStepKeeps(s, Do(s, ReadCache(c)), c);
  }

  lemma {:induction false} RangeContiguous(t: Table, base: nat, tip: nat, lo: nat, hi: nat)
    requires L.Contiguous(t, base, tip) && base <= lo
    ensures forall i :: 0 <= i < |Range(t, lo, hi)| ==> Range(t, lo, hi)[i].height == lo + i
    ensures lo <= hi && lo < tip ==> Range(t, lo, hi) != []
    decreases hi + 1 - lo
  {
    if lo <= hi {
      RangeContiguous(t, base, tip, lo + 1, hi);
      var rest := Range(t, lo + 1, hi);
      if lo in t {
        assert forall i :: 1 <= i < |rest| + 1 ==> Range(t, lo, hi)[i] == rest[i - 1];
      } else {
        assert forall h :: lo <= h <= hi ==> h !in t;
        C.EmptyRange(t, lo, hi);
      }
    }
  }

  lemma PrefixRunsUp(r: seq<Block>, t: Table, base: nat, tip: nat, lo: nat, hi: nat)
    requires L.Contiguous(t, base, tip) && base <= lo && r <= Range(t, lo, hi)
    ensures L.RunsUp(r, t, lo)
  {
    RangeContiguous(t, base, tip, lo, hi);
    RangeExact(t, lo, hi);
    forall b | b in r ensures b in Range(t, lo, hi) {
      var i :| 0 <= i < |r| && r[i] == b;
      assert b == Range(t, lo, hi)[i];
    }
    assert forall i :: 0 <= i < |r| ==> r[i] == Range(t, lo, hi)[i];
  }

  /** Two reads of a store that only grew: the cache as it was, the database as it is. */
  ghost predicate TwoReads(snap: C.Store, store: C.Store, base: nat, snapTip: nat, tip: nat) {
    && C.Inv(snap) && C.Inv(store) && C.Evolves(snap, store) && C.Bounded(snap)
    && L.Contiguous(C.Union(snap), base, snapTip) && L.Contiguous(C.Union(store), base, tip)
    && base < snapTip
  }

  lemma NewRequest(snap: C.Store, store: C.Store, base: nat, snapTip: nat, tip: nat, job: Job, row: Webhook)
    requires TwoReads(snap, store, base, snapTip, tip) && RowOk(row) && job.isNew
    ensures GoodRequest(C.Union(store), base, job, BlocksToSend(CachedBlocks(snap, job, row), store.db, job, row))
  {
    var lo, hi := L.LatestBlocksSnapshot(snap, store, base, snapTip, tip, row.maxBlocks);
  }

  lemma EstablishedAnswer(
    snap: C.Store, store: C.Store, base: nat, snapTip: nat, tip: nat, lo: nat, hi: nat, r: seq<Block>)
    requires TwoReads(snap, store, base, snapTip, tip)
    requires base <= lo < snapTip && lo <= hi && hi - lo + 1 < C.TWO_TO_THE_64
    requires r == C.FinishGetBlocks(Range(snap.cache, lo, hi), store.db, lo, hi)
    ensures r != [] && L.RunsUp(r, C.Union(store), lo)
  {
    C.GetBlocksSandwich(snap, store, lo, hi);
    BetweenRunsUp(r, C.Union(snap), C.Union(store), base, snapTip, tip, lo, hi);
  }

  /** The range of a request does not wrap around. */
  lemma RequestRange(job: Job, row: Webhook)
    requires !job.isNew && RowOk(row) && job.height <= C.TWO_TO_THE_53
    ensures var hi := job.height + row.maxBlocks - 1;
            && job.height <= hi && hi - job.height + 1 < C.TWO_TO_THE_64
            && C.U64(hi) == hi
  {
  }

  lemma RequestBlocks(job: Job, row: Webhook, snap: C.Store, db: Table, hi: nat) returns (r: seq<Block>)
    requires !job.isNew && C.U64(job.height + row.maxBlocks - 1) == hi
    ensures r == C.FinishGetBlocks(Range(snap.cache, job.height, hi), db, job.height, hi)
    ensures r == BlocksToSend(CachedBlocks(snap, job, row), db, job, row)
  {
    r := BlocksToSend(CachedBlocks(snap, job, row), db, job, row);
  }

  lemma EstablishedRequest(snap: C.Store, store: C.Store, base: nat, snapTip: nat, tip: nat, job: Job, row: Webhook)
    requires TwoReads(snap, store, base, snapTip, tip) && RowOk(row) && !job.isNew
    requires base <= job.height < snapTip <= C.TWO_TO_THE_53
    ensures GoodRequest(C.Union(store), base, job, BlocksToSend(CachedBlocks(snap, job, row), store.db, job, row))
  {
    var hi := job.height + row.maxBlocks - 1;
    RequestRange(job, row);
    var r := RequestBlocks(job, row, snap, store.db, hi);
    EstablishedAnswer(snap, store, base, snapTip, tip, job.height, hi, r);
  }

  lemma BetweenRunsUp(r: seq<Block>, t: Table, t': Table, base: nat, tip: nat, tip': nat, lo: nat, hi: nat)
    requires L.Contiguous(t, base, tip) && L.Contiguous(t', base, tip') && base <= lo < tip && lo <= hi
    requires Range(t, lo, hi) <= r <= Range(t', lo, hi)
    ensures r != [] && L.RunsUp(r, t', lo)
  {
    RangeContiguous(t, base, tip, lo, hi);
    PrefixRunsUp(r, t', base, tip', lo, hi);
  }

  /** There is always something to send, and it is what the webhook needs next. */
  lemma RequestIsGood(s: System, job: Job, p: Phase)
    requires StoreOk(s) && p.HalfRead? && HalfReadOk(s, job, p)
    ensures GoodBlocks(s, job, BlocksToSend(p.cached, s.store.db, job, p.row))
  {
    assert TwoReads(p.snapshot, s.store, s.base, p.snapshotTip, s.tip);
    if job.isNew {
      NewRequest(p.snapshot, s.store, s.base, p.snapshotTip, s.tip, job, p.row);
    } else {
      EstablishedRequest(p.snapshot, s.store, s.base, p.snapshotTip, s.tip, job, p.row);
    }
  }

  lemma ReadDbLocal(s: System, c: G.Consumer)
    requires StoreOk(s) && LocalOk(s, c) && Enabled(s, ReadDb(c))
    ensures LocalOk(Do(s, ReadDb(c)), c)
  {
    RequestIsGood(s, At(s, c).msg.data, At(s, c).phase);
  }

  lemma ReadDbKeeps(s: System, c: G.Consumer)
    requires Inv(s) && Enabled(s, ReadDb(c))
    ensures Inv(Do(s, ReadDb(c)))
  {
    ReadDbLocal(s, c);
    LocalStepKeeps(s, Do(s, ReadDb(c)), c);
  }

  lemma GoodBlocksAreStored(s: System, job: Job, blocks: seq<Block>)
    requires GoodBlocks(s, job, blocks)
    ensures Within(blocks, C.Union(s.store))
  {
    if job.isNew {
      L.RunMembers(blocks, C.Union(s.store), blocks[|blocks| - 1].height, blocks[0].height);
    }
  }

  lemma PostKeeps(s: System, c: G.Consumer, delivered: bool)
    requires Inv(s) && Enabled(s, Post(c, delivered))
    ensures Inv(Do(s, Post(c, delivered)))
  {
    assert LocalOk(s, c);
    var id, blocks := At(s, c).msg.data.id, At(s, c).phase.blocks;
    assert forall b :: b in blocks ==> (id, b) in Postings(id, blocks);
    GoodBlocksAreStored(s, At(s, c).msg.data, blocks);
    LocalStepKeeps(s, Do(s, Post(c, delivered)), c);
  }

  lemma ReadsKeepInv(s: System, step: Step)
    requires Inv(s) && OwnInv(s) && Enabled(s, step) && (step.ReadBacklog? || step.ReadNew?)
    ensures Inv(Do(s, step))
  {
    LocalStepKeeps(s, Do(s, step), step.c);
  }

  // ----- Acknowledging a message -----

  /** What a consumer does to the jobs when it is done with a message: its job goes, possibly another one comes. */
  lemma AckJobs(s: System, s': System, m: G.Msg<Job>, next: Option<Job>)
    requires JobsOk(s) && LatestOk(s) && S.Valid(s.shard) && m in s.shard.group.entries && Grows(s, s')
    requires forall id :: id in s.history.first && id != m.data.id ==>
               id in s'.history.first && s'.history.first[id] == s.history.first[id]
    requires s'.shard.latest == s.shard.latest
    requires forall x :: x in s'.shard.group.entries ==>
               (x in s.shard.group.entries && x.id != m.id)
               || (next.Some? && x.data == next.value && s.shard.latest.Some? && next.value.height < s.shard.latest.value)
    requires forall e :: e in s'.shard.pending ==> e in s.shard.pending || (next.Some? && e.job == next.value)
    requires next.Some? ==> JobOk(s', next.value)
    ensures JobsOk(s')
  {
    S.StreamJobIsAlone(s.shard, m);
    forall x | x in s'.shard.group.entries ensures JobOk(s', x.data) {
      if x in s.shard.group.entries && x.id != m.id {
        JobKept(s, s', x.data);
      }
    }
    forall e | e in s'.shard.pending ensures JobOk(s', e.job) {
      if e in s.shard.pending {
        JobKept(s, s', e.job);
      }
    }
  }

  lemma RescheduleLatest(s: System, s': System, m: G.Msg<Job>, job: Job)
    requires LatestOk(s) && S.Valid(s.shard) && m in s.shard.group.entries && job.id == m.data.id
    requires s'.shard == S.Reschedule(s.shard, m.id, job) && s'.router == s.router && s'.base == s.base && s'.tip == s.tip
    ensures LatestOk(s')
  {
    S.RescheduleExact(s.shard, m, job);
    S.AwaitsKept(s.shard, 0, [], m, job);
  }

  /** Putting the parts together when a consumer is done with a message. */
  lemma AckKeepsInv(s: System, s': System, c: G.Consumer)
    requires Inv(s) && LatestOk(s') && JobsOk(s')
    requires s'.store == s.store && s'.router == s.router && s'.rows == s.rows && s'.base == s.base && s'.tip == s.tip
    requires s.history.posted == s'.history.posted && s.history.skipped <= s'.history.skipped
    requires forall d :: d != c ==> At(s', d) == At(s, d)
    requires At(s', c).Scanning?
    ensures Inv(s')
  {
    GrowsReflexive(s, s');
    LocalsKept(s, s', c);
  }

  lemma DropLatest(s: System, s': System, m: G.Msg<Job>)
    requires LatestOk(s) && S.Valid(s.shard) && m in s.shard.group.entries
    requires s'.shard == S.Drop(s.shard, m.id, m.data.id)
    requires s'.router == s.router && s'.base == s.base && s'.tip == s.tip
    ensures LatestOk(s')
  {
    S.DropExact(s.shard, m);
    S.AwaitsKept(s.shard, 0, [], m, m.data);
  }

  lemma DropParts(s: System, s': System, m: G.Msg<Job>)
    requires JobsOk(s) && LatestOk(s) && S.Valid(s.shard) && m in s.shard.group.entries
    requires s'.shard == S.Drop(s.shard, m.id, m.data.id)
    requires s'.store == s.store && s'.router == s.router && s'.base == s.base && s'.tip == s.tip
    requires s'.history.first == s.history.first - {m.data.id}
    requires s'.history.posted == s.history.posted && s'.history.skipped == s.history.skipped
    ensures LatestOk(s') && JobsOk(s')
  {
    S.DropExact(s.shard, m);
    DropLatest(s, s', m);
    GrowsReflexive(s, s');
    AckJobs(s, s', m, None);
  }

  lemma RescheduleParts(s: System, s': System, m: G.Msg<Job>, next: Job)
    requires JobsOk(s) && LatestOk(s) && S.Valid(s.shard) && m in s.shard.group.entries && next.id == m.data.id
    requires s'.shard == S.Reschedule(s.shard, m.id, next)
    requires s'.store == s.store && s'.router == s.router && s'.base == s.base && s'.tip == s.tip
    requires s.history.posted <= s'.history.posted && s.history.skipped <= s'.history.skipped
    requires forall id :: id in s.history.first && id != m.data.id ==>
               id in s'.history.first && s'.history.first[id] == s.history.first[id]
    requires JobOk(s', next)
    ensures LatestOk(s') && JobsOk(s')
  {
    S.RescheduleExact(s.shard, m, next);
    GrowsReflexive(s, s');
    RescheduleLatest(s, s', m, next);
    AckJobs(s, s', m, Some(next));
  }

  lemma DropKeepsInv(s: System, c: G.Consumer)
    requires Inv(s) && OwnInv(s) && Enabled(s, DropJob(c))
    ensures Inv(Do(s, DropJob(c)))
  {
    assert Holds(s, c);
    DropParts(s, Do(s, DropJob(c)), At(s, c).msg);
    AckKeepsInv(s, Do(s, DropJob(c)), c);
  }

  /** A height that is given up counts as done, and the job goes on at the next one. */
  lemma SkipJobOk(s: System, s': System, job: Job)
    requires Grows(s, s') && JobOk(s, job) && s'.history.first == s.history.first
    requires !job.isNew ==> job.height < s.tip && (job.id, job.height) in s'.history.skipped
    ensures JobOk(s', SkipJob(job)) && SkipJob(job) == Job(job.id, job.height + 1, job.isNew)
  {
    if !job.isNew {
      JobKept(s, s', job);
      assert Done(s', job.id, job.height);
    }
  }

  lemma GiveUpKeepsInv(s: System, c: G.Consumer)
    requires Inv(s) && OwnInv(s) && Enabled(s, GiveUp(c))
    ensures Inv(Do(s, GiveUp(c)))
  {
    assert Holds(s, c);
    var m := At(s, c).msg;
    var r := Do(s, GiveUp(c));
    GrowsReflexive(s, r);
    SkipJobOk(s, r, m.data);
    RescheduleParts(s, r, m, SkipJob(m.data));
    AckKeepsInv(s, r, c);
  }

  lemma SentIsDone(s: System, s': System, id: WebhookId, blocks: seq<Block>, b: Block)
    requires Grows(s, s') && s'.store == s.store && b in blocks
    requires Within(blocks, C.Union(s.store))
    requires forall x :: x in blocks ==> (id, x) in s.history.posted
    ensures Done(s', id, b.height) && b.height in C.Union(s.store)
  {
  }

  /** After a first delivery the job is covered from the lowest block of the request, which is its last one. */
  lemma NextNewJobOk(s: System, s': System, job: Job, blocks: seq<Block>)
    requires StoreOk(s) && Grows(s, s') && s'.store == s.store && s'.tip == s.tip
    requires job.isNew && GoodBlocks(s, job, blocks)
    requires forall b :: b in blocks ==> (job.id, b) in s.history.posted
    requires job.id in s'.history.first && s'.history.first[job.id] == blocks[|blocks| - 1].height
    ensures JobOk(s', NextJob(job, blocks))
  {
    GoodBlocksAreStored(s, job, blocks);
    SentIsDone(s, s', job.id, blocks, blocks[|blocks| - 1]);
  }

  /** After any other delivery the job was covered up to its height, and the request covers the rest. */
  lemma NextEstablishedJobOk(s: System, s': System, job: Job, blocks: seq<Block>)
    requires StoreOk(s) && Grows(s, s') && s'.store == s.store && s'.tip == s.tip
    requires !job.isNew && JobOk(s, job) && GoodBlocks(s, job, blocks)
    requires forall b :: b in blocks ==> (job.id, b) in s.history.posted
    requires s'.history.first == s.history.first
    ensures JobOk(s', NextJob(job, blocks))
  {
    GoodBlocksAreStored(s, job, blocks);
    SentIsDone(s, s', job.id, blocks, blocks[|blocks| - 1]);
    forall k | s'.history.first[job.id] <= k < NextJob(job, blocks).height ensures Done(s', job.id, k) {
      if k < job.height {
        DoneKept(s, s', job.id, k);
      } else {
        SentIsDone(s, s', job.id, blocks, blocks[k - job.height]);
      }
    }
  }

  lemma FinishParts(s: System, c: G.Consumer)
    requires StoreOk(s) && JobsOk(s) && LatestOk(s) && S.Valid(s.shard) && LocalOk(s, c) && Holds(s, c)
    requires Enabled(s, Finish(c))
    ensures LatestOk(Do(s, Finish(c))) && JobsOk(Do(s, Finish(c)))
  {
    var m, blocks := At(s, c).msg, At(s, c).phase.blocks;
    var r := Do(s, Finish(c));
    GrowsReflexive(s, r);
    if m.data.isNew {
      NextNewJobOk(s, r, m.data, blocks);
    } else {
      NextEstablishedJobOk(s, r, m.data, blocks);
    }
    RescheduleParts(s, r, m, NextJob(m.data, blocks));
  }

  lemma FinishKeepsInv(s: System, c: G.Consumer)
    requires Inv(s) && OwnInv(s) && Enabled(s, Finish(c))
    ensures Inv(Do(s, Finish(c)))
  {
    FinishParts(s, c);
    AckKeepsInv(s, Do(s, Finish(c)), c);
  }

  // ----- Every step, every run -----

  /** The steps of one relay consumer. */
  predicate OfConsumer(step: Step) {
    step.ReadBacklog? || step.ReadNew? || step.LookUp? || step.DropJob? || step.CheckRetries? || step.GiveUp?
    || step.ReadCache? || step.ReadDb? || step.Post? || step.Finish? || step.HandlerFails? || step.ConsumerCrashes?
  }

  lemma StepKeepsInv(s: System, step: Step)
    requires Inv(s) && OwnInv(s) && Enabled(s, step) && Disciplined(s, step)
    ensures Inv(Do(s, step))
  {
    if OfConsumer(step) {
      ConsumerStepKeepsInv(s, step);
    } else {
      match step
      case Activate(ids) => ActivateKeepsInv(s, ids);
      case SetRow(_, _) => RowsKeep(s, step);
      case DeleteRow(_) => RowsKeep(s, step);
      case TakeBatch(_) => RouterKeeps(s, step);
      case StoreBatch => StoreBatchKeeps(s);
      case FlushShard => FlushKeepsInv(s);
      case AckBatch => RouterKeeps(s, step);
      case RouterFails => RouterKeeps(s, step);
      case FlusherStep(st) => FlusherKeeps(s, st);
    }
  }

  lemma ConsumerStepKeepsInv(s: System, step: Step)
    requires Inv(s) && OwnInv(s) && Enabled(s, step) && OfConsumer(step)
    ensures Inv(Do(s, step))
  {
    match step
    case ReadBacklog(_) => ReadsKeepInv(s, step);
    case ReadNew(_) => ReadsKeepInv(s, step);
    case LookUp(c) => LookUpKeeps(s, c);
    case DropJob(c) => DropKeepsInv(s, c);
    case CheckRetries(c) => CheckRetriesKeeps(s, c);
    case GiveUp(c) => GiveUpKeepsInv(s, c);
    case ReadCache(c) => ReadCacheKeeps(s, c);
    case ReadDb(c) => ReadDbKeeps(s, c);
    case Post(c, delivered) => PostKeeps(s, c, delivered);
    case Finish(c) => FinishKeepsInv(s, c);
    case HandlerFails(c) => LocalStepKeeps(s, Do(s, step), c);
    case ConsumerCrashes(c) => LocalStepKeeps(s, Do(s, step), c);
  }

  /** The state after a run from the start. */
  ghost function Reached(base: nat, steps: seq<Step>): System
    requires DisciplinedRun(Init(base), steps)
  {
    DisciplinedIsRun(Init(base), steps);
    After(Init(base), steps)
  }

  lemma {:induction false} DisciplinedIsRun(s: System, steps: seq<Step>)
    requires DisciplinedRun(s, steps)
    ensures IsRun(s, steps)
    decreases |steps|
  {
    if steps != [] {
      DisciplinedIsRun(Do(s, steps[0]), steps[1..]);
    }
  }

  ghost predicate DisciplinedRun(s: System, steps: seq<Step>)
    decreases |steps|
  {
    steps == [] || (Enabled(s, steps[0]) && Disciplined(s, steps[0]) && DisciplinedRun(Do(s, steps[0]), steps[1..]))
  }

  lemma BaseStays(s: System, step: Step)
    requires Enabled(s, step)
    ensures Do(s, step).base == s.base
  {
  }

  lemma {:induction false} RunKeepsInv(s: System, steps: seq<Step>)
    requires Inv(s) && OwnInv(s) && DisciplinedRun(s, steps)
    ensures IsRun(s, steps) && Inv(After(s, steps)) && OwnInv(After(s, steps)) && After(s, steps).base == s.base
    decreases |steps|
  {
    if steps != [] {
      BaseStays(s, steps[0]);
      StepKeepsInv(s, steps[0]);
      StepKeepsOwnInv(s, steps[0]);
      RunKeepsInv(Do(s, steps[0]), steps[1..]);
    }
  }

  lemma ReachableInv(base: nat, steps: seq<Step>)
    requires 1 <= base <= C.TWO_TO_THE_53 && DisciplinedRun(Init(base), steps)
    ensures Inv(Reached(base, steps)) && OwnInv(Reached(base, steps)) && Reached(base, steps).base == base
  {
    InitOwnInv(base);
    RunKeepsInv(Init(base), steps);
  }

  lemma InitInv(base: nat)
    requires 1 <= base <= C.TWO_TO_THE_53
    ensures Inv(Init(base))
  {
  }
}
