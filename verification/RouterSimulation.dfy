/** The router of the scheduler, taken apart. */
module RouterSimulation {
  // A consumer reads the block stream in batches, with its cursor, its pending entries, its failures and crashes, and a
  // handler stores a batch, flushes the shard and acknowledges. All they can do is what the scheduler lets its router do.

  import opened Wrappers
  import opened BlockTables
  import C = CachedStore
  import F = Scheduler
  import G = RedisGroup
  import O = OrderedStream
  import R = BlockRouters
  import S = WebhookShard

  /** What the handler has done with the batch in its hands. */
  datatype Progress = Nothing | Stored | Flushed

  /** The consumer on the block stream, its handler's progress, and the rest of the feed; `feed.router` plays no part. */
  datatype State = State(stream: O.State<Block>, progress: Progress, feed: F.System)

  datatype Step =
    | Publish(data: Data)
    | ReadBacklog
    | ReadNew
    | StoreBatch
    | FlushShard
    | Acknowledge
    | HandlerFails
    | Crash
    | Elsewhere(step: F.Step)

  predicate OfRouter(step: F.Step) {
    step.TakeBatch? || step.StoreBatch? || step.FlushShard? || step.AckBatch? || step.RouterFails?
  }

  ghost function Init(base: nat): State {
    State(O.Init(), Nothing, F.Init(base))
  }

  /** Blocks are published with consecutive heights from `base` on. */
  ghost function NextBlock(s: State, base: nat, data: Data): Block {
    Block(base + |s.stream.published|, data)
  }

  ghost predicate Enabled(s: State, step: Step, base: nat, n: nat) {
    match step
    case Publish(data) => base + |s.stream.published| < C.TWO_TO_THE_53
    case ReadBacklog => O.Enabled(s.stream, O.ReadBacklog, n)
    case ReadNew => O.Enabled(s.stream, O.ReadNew, n)
    case StoreBatch => O.Enabled(s.stream, O.HandlerAcks, n) && s.progress.Nothing?
    case FlushShard => O.Enabled(s.stream, O.HandlerAcks, n) && s.progress.Stored?
    case Acknowledge => O.Enabled(s.stream, O.HandlerAcks, n) && s.progress.Flushed?
    case HandlerFails => O.Enabled(s.stream, O.HandlerFails, n)
    case Crash => true
    case Elsewhere(step) => !OfRouter(step) && F.Enabled(s.feed, step)
  }

  /** Storing, flushing and acknowledging do what the contract of BlockRouter.HandleMessages says. */
  ghost function Do(s: State, step: Step, base: nat, n: nat): State
    requires Enabled(s, step, base, n)
  {
    match step
    case Publish(data) => s.(stream := O.Do(s.stream, O.Publish(NextBlock(s, base, data)), n))
    case ReadBacklog => s.(stream := O.Do(s.stream, O.ReadBacklog, n), progress := Nothing)
    case ReadNew => s.(stream := O.Do(s.stream, O.ReadNew, n), progress := Nothing)
    case StoreBatch =>
      s.(progress := Stored,
         feed := s.feed.(store := C.Do(s.feed.store, C.Put(R.BlocksOf(s.stream.phase.batch))),
                         tip := base + s.stream.group.lastDelivered))
    case FlushShard =>
      s.(progress := Flushed, feed := s.feed.(shard := S.Flush(s.feed.shard, R.MaxHeight(s.stream.phase.batch))))
    case Acknowledge => s.(stream := O.Do(s.stream, O.HandlerAcks, n), progress := Nothing)
    case HandlerFails => s.(stream := O.Do(s.stream, O.HandlerFails, n), progress := Nothing)
    case Crash => s.(stream := O.Do(s.stream, O.Crash, n), progress := Nothing)
    case Elsewhere(step) => s.(feed := F.Do(s.feed, step))
  }

  // ----- The scheduler's view -----

  ghost predicate Idle(st: O.State<Block>) {
    st.ackedUpTo == st.group.lastDelivered
  }

  ghost function PhaseOf(st: O.State<Block>, progress: Progress): F.RouterPhase {
    if !st.phase.Handling? then F.Taken
    else match progress case Nothing => F.Taken case Stored => F.Stored case Flushed => F.Flushed
  }

  ghost predicate HasBatch(st: O.State<Block>) {
    Idle(st) || st.calls != []
  }

  ghost function RouterOf(st: O.State<Block>, progress: Progress, base: nat): F.Router
    requires HasBatch(st)
  {
    var next := base + st.group.lastDelivered;
    if Idle(st) then F.Router(next, [], F.RouterIdle)
    else F.Router(next, R.BlocksOf(O.LastCall(st)), PhaseOf(st, progress))
  }

  ghost function View(s: State, base: nat): F.System
    requires HasBatch(s.stream)
  {
    s.feed.(router := RouterOf(s.stream, s.progress, base))
  }

  ghost function DataOf(msgs: seq<G.Msg<Block>>): (data: seq<Data>)
    ensures |data| == |msgs| && forall i :: 0 <= i < |msgs| ==> data[i] == msgs[i].data.data
  {
    seq(|msgs|, i requires 0 <= i < |msgs| => msgs[i].data.data)
  }

  /** The scheduler's step, if it sees one. */
  ghost function SeenAs(s: State, step: Step, n: nat): Option<F.Step> {
    match step
    case ReadNew => Some(F.TakeBatch(DataOf(G.NewBatch(s.stream.group, n))))
    case StoreBatch => Some(F.StoreBatch)
    case FlushShard => Some(F.FlushShard)
    case Acknowledge => Some(F.AckBatch)
    case HandlerFails => Some(F.RouterFails)
    case Crash => if Idle(s.stream) then None else Some(F.RouterFails)
    case Elsewhere(step) => Some(step)
    case _ => None
  }

  ghost predicate HeightsFrom(published: seq<Block>, base: nat) {
    forall i :: 0 <= i < |published| ==> published[i].height == base + i
  }

  /** The consumer is in order, and the published blocks have consecutive heights. */
  ghost predicate Inv(s: State, base: nat, n: nat) {
    O.Inv(s.stream, n) && base + |s.stream.published| <= C.TWO_TO_THE_53 && HeightsFrom(s.stream.published, base)
  }

  // ----- A batch of published blocks -----

  lemma PublishedAt(published: seq<Block>, base: nat, msgs: seq<G.Msg<Block>>, lo: nat, hi: nat, i: nat)
    requires HeightsFrom(published, base) && O.Slice(msgs, published, lo, hi) && i < |msgs|
    ensures msgs[i].data == Block(base + lo + i, msgs[i].data.data)
  {
    assert msgs[i].data == published[lo + i];
  }

  lemma BlocksPublished(published: seq<Block>, base: nat, msgs: seq<G.Msg<Block>>, lo: nat, hi: nat)
    requires HeightsFrom(published, base) && O.Slice(msgs, published, lo, hi)
    ensures R.BlocksOf(msgs) == F.BlocksFrom(base + lo, DataOf(msgs))
  {
    var blocks, data := R.BlocksOf(msgs), DataOf(msgs);
    var expected := F.BlocksFrom(base + lo, data);
    assert |blocks| == |expected|;
    forall i | 0 <= i < |blocks| ensures blocks[i] == expected[i] {
      PublishedAt(published, base, msgs, lo, hi, i);
    }
  }

  lemma TopPublished(published: seq<Block>, base: nat, msgs: seq<G.Msg<Block>>, lo: nat, hi: nat)
    requires HeightsFrom(published, base) && O.Slice(msgs, published, lo, hi) && msgs != []
    ensures R.MaxHeight(msgs) == base + hi - 1
  {
    forall k | 0 <= k < |msgs| ensures msgs[k].data.height == base + lo + k {
      PublishedAt(published, base, msgs, lo, hi, k);
    }
    R.MaxHeightUnique(msgs, base + hi - 1, |msgs| - 1);
  }

  // ----- The router before and after a step of the consumer -----

  lemma TakenRouter(st: O.State<Block>, batch: seq<G.Msg<Block>>, pos: nat, r: O.State<Block>, base: nat)
    requires HeightsFrom(st.published, base) && batch != []
    requires O.Slice(batch, st.published, pos, pos + |batch|)
    requires r.group.lastDelivered == pos + |batch| && !Idle(r) && r.phase == O.Handling(batch, false)
    requires r.calls != [] && O.LastCall(r) == batch
    ensures RouterOf(r, Nothing, base)
            == F.Router(base + pos + |batch|, F.BlocksFrom(base + pos, DataOf(batch)), F.Taken)
  {
    BlocksPublished(st.published, base, batch, pos, pos + |batch|);
  }

  lemma ReadBacklogRouter(st: O.State<Block>, p: Progress, base: nat, n: nat)
    requires O.Inv(st, n) && n > 0 && O.Enabled(st, O.ReadBacklog, n)
    ensures O.Inv(O.Do(st, O.ReadBacklog, n), n)
    ensures RouterOf(O.Do(st, O.ReadBacklog, n), Nothing, base) == RouterOf(st, p, base)
  {
    O.ReadBacklogKeeps(st, n);
    O.BacklogIsLastBatch(st, n);
    var r := O.Do(st, O.ReadBacklog, n);
    assert r.calls != st.calls ==> O.LastCall(r) == O.LastCall(st);
  }

  /** The batch in the handler's hands is the router's. */
  lemma HandlingRouter(st: O.State<Block>, p: Progress, base: nat, n: nat)
    requires O.Inv(st, n) && st.phase.Handling? && HeightsFrom(st.published, base)
    ensures !Idle(st) && st.phase.batch != []
    ensures RouterOf(st, p, base)
            == F.Router(base + st.group.lastDelivered, R.BlocksOf(st.phase.batch), PhaseOf(st, p))
    ensures R.MaxHeight(st.phase.batch) == base + st.group.lastDelivered - 1
    ensures st.group.lastDelivered > 0
  {
    var batch, end := O.LastCall(st), st.group.lastDelivered;
    TopPublished(st.published, base, batch, end - |batch|, end);
  }

  lemma AcknowledgedRouter(st: O.State<Block>, p: Progress, base: nat, n: nat)
    requires O.Inv(st, n) && O.Enabled(st, O.HandlerAcks, n)
    ensures O.Inv(O.Do(st, O.HandlerAcks, n), n)
    ensures RouterOf(O.Do(st, O.HandlerAcks, n), p, base) == F.Router(base + st.group.lastDelivered, [], F.RouterIdle)
  {
    O.HandlerAcksKeeps(st, n);
    var last := O.LastCall(st);
    assert last[|last| - 1].id == st.group.lastDelivered;
  }

  /** A failure or a crash leaves the pending batch to be taken up again. */
  lemma FailedRouter(st: O.State<Block>, t: O.Step<Block>, p: Progress, base: nat, n: nat)
    requires O.Inv(st, n) && n > 0 && O.Enabled(st, t, n) && (t.HandlerFails? || t.Crash?)
    ensures O.Inv(O.Do(st, t, n), n)
    ensures t.HandlerFails? ==> !Idle(st)
    ensures Idle(O.Do(st, t, n)) == Idle(st)
    ensures RouterOf(O.Do(st, t, n), Nothing, base)
            == if Idle(st) then RouterOf(st, p, base) else RouterOf(st, p, base).(phase := F.Taken)
  {
    O.StepKeepsInv(st, t, n);
  }

  // ----- The steps -----

  lemma TakeSeen(feed: F.System, next: nat, data: seq<Data>)
    requires data != [] && next + |data| <= C.TWO_TO_THE_53
    ensures var idle := feed.(router := F.Router(next, [], F.RouterIdle));
            && F.Enabled(idle, F.TakeBatch(data))
            && F.Do(idle, F.TakeBatch(data))
               == feed.(router := F.Router(next + |data|, F.BlocksFrom(next, data), F.Taken))
  {
  }

  lemma BatchSeen(s: State, batch: seq<G.Msg<Block>>, r: State, base: nat)
    requires HeightsFrom(s.stream.published, base) && base + |s.stream.published| <= C.TWO_TO_THE_53
    requires Idle(s.stream) && batch != []
    requires O.Slice(batch, s.stream.published, s.stream.group.lastDelivered, s.stream.group.lastDelivered + |batch|)
    requires r.feed == s.feed && r.progress == Nothing
    requires r.stream.group.lastDelivered == s.stream.group.lastDelivered + |batch|
    requires !Idle(r.stream) && r.stream.phase == O.Handling(batch, false)
    requires r.stream.calls != [] && O.LastCall(r.stream) == batch
    ensures F.Enabled(View(s, base), F.TakeBatch(DataOf(batch)))
    ensures View(r, base) == F.Do(View(s, base), F.TakeBatch(DataOf(batch)))
  {
    TakenRouter(s.stream, batch, s.stream.group.lastDelivered, r.stream, base);
    TakeSeen(s.feed, base + s.stream.group.lastDelivered, DataOf(batch));
  }

  lemma ReadNewSeen(s: State, base: nat, n: nat)
    requires Inv(s, base, n) && n > 0 && Enabled(s, ReadNew, base, n)
    ensures HasBatch(Do(s, ReadNew, base, n).stream)
    ensures var t := F.TakeBatch(DataOf(G.NewBatch(s.stream.group, n)));
            F.Enabled(View(s, base), t) && View(Do(s, ReadNew, base, n), base) == F.Do(View(s, base), t)
  {
    O.ReadNewBatch(s.stream, n);
    BatchSeen(s, G.NewBatch(s.stream.group, n), Do(s, ReadNew, base, n), base);
  }

  lemma ReadBacklogSeen(s: State, base: nat, n: nat)
    requires Inv(s, base, n) && n > 0 && Enabled(s, ReadBacklog, base, n)
    ensures Inv(Do(s, ReadBacklog, base, n), base, n)
    ensures View(Do(s, ReadBacklog, base, n), base) == View(s, base)
  {
    ReadBacklogRouter(s.stream, s.progress, base, n);
  }

  lemma StoreSeen(s: State, base: nat, n: nat)
    requires Inv(s, base, n) && Enabled(s, StoreBatch, base, n)
    ensures Inv(Do(s, StoreBatch, base, n), base, n)
    ensures F.Enabled(View(s, base), F.StoreBatch)
    ensures View(Do(s, StoreBatch, base, n), base) == F.Do(View(s, base), F.StoreBatch)
  {
    HandlingRouter(s.stream, s.progress, base, n);
    HandlingRouter(s.stream, Stored, base, n);
  }

  lemma FlushDone(feed: F.System, next: nat, batch: seq<Block>)
    requires next > 0
    ensures F.Do(feed.(router := F.Router(next, batch, F.Stored)), F.FlushShard)
            == feed.(shard := S.Flush(feed.shard, next - 1), router := F.Router(next, batch, F.Flushed))
  {
  }

  lemma FlushSeen(s: State, base: nat, n: nat)
    requires Inv(s, base, n) && Enabled(s, FlushShard, base, n)
    ensures Inv(Do(s, FlushShard, base, n), base, n)
    ensures F.Enabled(View(s, base), F.FlushShard)
    ensures View(Do(s, FlushShard, base, n), base) == F.Do(View(s, base), F.FlushShard)
  {
    HandlingRouter(s.stream, s.progress, base, n);
    HandlingRouter(s.stream, Flushed, base, n);
    FlushDone(s.feed, base + s.stream.group.lastDelivered, R.BlocksOf(s.stream.phase.batch));
  }

  lemma AckDone(feed: F.System, next: nat, batch: seq<Block>)
    ensures F.Do(feed.(router := F.Router(next, batch, F.Flushed)), F.AckBatch)
            == feed.(router := F.Router(next, [], F.RouterIdle))
  {
  }

  lemma AcknowledgeSeen(s: State, base: nat, n: nat)
    requires Inv(s, base, n) && Enabled(s, Acknowledge, base, n)
    ensures Inv(Do(s, Acknowledge, base, n), base, n)
    ensures F.Enabled(View(s, base), F.AckBatch)
    ensures View(Do(s, Acknowledge, base, n), base) == F.Do(View(s, base), F.AckBatch)
  {
    HandlingRouter(s.stream, s.progress, base, n);
    AcknowledgedRouter(s.stream, Nothing, base, n);
    AckDone(s.feed, base + s.stream.group.lastDelivered, R.BlocksOf(s.stream.phase.batch));
  }

  lemma FailureSeen(s: State, step: Step, base: nat, n: nat)
    requires Inv(s, base, n) && n > 0 && Enabled(s, step, base, n) && (step.HandlerFails? || step.Crash?)
    ensures Inv(Do(s, step, base, n), base, n)
    ensures if Idle(s.stream) then View(Do(s, step, base, n), base) == View(s, base)
            else F.Enabled(View(s, base), F.RouterFails)
                 && View(Do(s, step, base, n), base) == F.Do(View(s, base), F.RouterFails)
    ensures step.HandlerFails? ==> !Idle(s.stream)
  {
    FailedRouter(s.stream, if step.Crash? then O.Crash else O.HandlerFails, s.progress, base, n);
  }

  lemma PublishSeen(s: State, data: Data, base: nat, n: nat)
    requires Inv(s, base, n) && Enabled(s, Publish(data), base, n)
    ensures Inv(Do(s, Publish(data), base, n), base, n)
    ensures View(Do(s, Publish(data), base, n), base) == View(s, base)
  {
    O.PublishKeeps(s.stream, NextBlock(s, base, data), n);
  }

  /** The other steps neither look at the router nor change it. */
  lemma ElsewhereSeen(feed: F.System, step: F.Step, router: F.Router)
    requires !OfRouter(step) && F.Enabled(feed, step)
    ensures F.Enabled(feed.(router := router), step)
    ensures F.Do(feed, step).(router := router) == F.Do(feed.(router := router), step)
  {
  }

  /** Each step is a step of the scheduler, or changes nothing that the scheduler sees. */
  lemma StepSimulated(s: State, step: Step, base: nat, n: nat)
    requires Inv(s, base, n) && n > 0 && Enabled(s, step, base, n)
    ensures Inv(Do(s, step, base, n), base, n)
    ensures match SeenAs(s, step, n)
            case None => View(Do(s, step, base, n), base) == View(s, base)
            case Some(t) => F.Enabled(View(s, base), t) && View(Do(s, step, base, n), base) == F.Do(View(s, base), t)
  {
    match step
    case Publish(data) => PublishSeen(s, data, base, n);
    case ReadBacklog => ReadBacklogSeen(s, base, n);
    case ReadNew =>
      O.ReadNewKeeps(s.stream, n);
      ReadNewSeen(s, base, n);
    case StoreBatch => StoreSeen(s, base, n);
    case FlushShard => FlushSeen(s, base, n);
    case Acknowledge => AcknowledgeSeen(s, base, n);
    case HandlerFails => FailureSeen(s, step, base, n);
    case Crash => FailureSeen(s, step, base, n);
    case Elsewhere(t) => ElsewhereSeen(s.feed, t, RouterOf(s.stream, s.progress, base));
  }

  // ----- Whole runs -----

  ghost predicate IsRun(s: State, steps: seq<Step>, base: nat, n: nat)
    decreases |steps|
  {
    steps == [] || (Enabled(s, steps[0], base, n) && IsRun(Do(s, steps[0], base, n), steps[1..], base, n))
  }

  ghost function After(s: State, steps: seq<Step>, base: nat, n: nat): State
    requires IsRun(s, steps, base, n)
    decreases |steps|
  {
    if steps == [] then s else After(Do(s, steps[0], base, n), steps[1..], base, n)
  }

  lemma {:induction false} RunSeen(s: State, steps: seq<Step>, base: nat, n: nat) returns (seen: seq<F.Step>)
    requires Inv(s, base, n) && n > 0 && IsRun(s, steps, base, n)
    ensures Inv(After(s, steps, base, n), base, n)
    ensures F.IsRun(View(s, base), seen) && F.After(View(s, base), seen) == View(After(s, steps, base, n), base)
    decreases |steps|
  {
    seen := [];
    if steps != [] {
      StepSimulated(s, steps[0], base, n);
      var rest := RunSeen(Do(s, steps[0], base, n), steps[1..], base, n);
      seen := match SeenAs(s, steps[0], n) case None => rest case Some(t) => [t] + rest;
      assert SeenAs(s, steps[0], n).Some? ==> seen[1..] == rest;
    }
  }

  /**
   Every run of the taken-apart feed, whatever fails or crashes, is a run of the scheduler that ends in the same
   state: what holds in all runs of the scheduler holds for the router's consumer and handler.
   */
  lemma RouterIsSimulated(steps: seq<Step>, base: nat, n: nat) returns (seen: seq<F.Step>)
    requires n > 0 && base <= C.TWO_TO_THE_53 && IsRun(Init(base), steps, base, n)
    ensures Inv(After(Init(base), steps, base, n), base, n)
    ensures F.IsRun(F.Init(base), seen) && F.After(F.Init(base), seen) == View(After(Init(base), steps, base, n), base)
  {
    O.InitInv<Block>(n);
    assert View(Init(base), base) == F.Init(base);
    seen := RunSeen(Init(base), steps, base, n);
  }
}
