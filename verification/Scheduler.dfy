/**
 The whole feed as a state machine: one shard of the webhook scheduler, the cached block store with its
 flusher, the block router and any number of relay consumers, all interleaved one atomic step at a time.
 A crash loses what a process knew and leaves Redis and the database as they were.
 The last component records history that no step looks at.
 */
module Scheduler {
  import opened PendingSet
  import opened BlockTables
  import S = WebhookShard
  import G = RedisGroup
  import C = CachedStore
  import L = LatestBlocks

  /** The columns of a webhook row that the relay uses. */
  datatype Webhook = Webhook(maxBlocks: nat, maxRetries: int)

  /** What the handler of a relay does next with the message in its hands. */
  datatype Phase =
    | Received
    | Missing
    | Checking(row: Webhook)
    | GivingUp
    | Reading(row: Webhook)
    | HalfRead(row: Webhook, cached: seq<Block>, snapshot: C.Store, snapshotTip: nat)
    | Sending(blocks: seq<Block>)
    | Sent(blocks: seq<Block>)

  /** A consumer scans its backlog from a cursor, waits for new messages, or is inside the handler. */
  datatype Local =
    | Scanning(cursor: nat)
    | AwaitingNew
    | Busy(msg: G.Msg<Job>, backlog: bool, phase: Phase)

  datatype RouterPhase = RouterIdle | Taken | Stored | Flushed

  /** The next height of the block stream, the batch in the router's hands, and how far it got with it. */
  datatype Router = Router(next: nat, batch: seq<Block>, phase: RouterPhase)

  /**
   What was POSTed, what was given up, where each established job began, and the POSTs per message; which heights a
   webhook has heard of in requests of its new job, acknowledged or not; and the webhooks that were ever dropped.
   */
  datatype History = History(
    posted: set<(WebhookId, Block)>,
    skipped: set<(WebhookId, nat)>,
    first: map<WebhookId, nat>,
    attempts: map<G.Msg<Job>, nat>,
    heard: map<WebhookId, set<nat>>,
    dropped: set<WebhookId>)

  /** The stored heights are base, ..., tip - 1. */
  datatype System = System(
    shard: S.Shard,
    store: C.Store,
    router: Router,
    rows: map<WebhookId, Webhook>,
    locals: map<G.Consumer, Local>,
    base: nat,
    tip: nat,
    history: History)

  datatype Step =
    | Activate(ids: seq<WebhookId>)
    | SetRow(id: WebhookId, row: Webhook)
    | DeleteRow(id: WebhookId)
    | TakeBatch(data: seq<Data>)
    | StoreBatch
    | FlushShard
    | AckBatch
    | RouterFails
    | FlusherStep(step: C.StoreStep)
    | ReadBacklog(c: G.Consumer)
    | ReadNew(c: G.Consumer)
    | LookUp(c: G.Consumer)
    | DropJob(c: G.Consumer)
    | CheckRetries(c: G.Consumer)
    | GiveUp(c: G.Consumer)
    | ReadCache(c: G.Consumer)
    | ReadDb(c: G.Consumer)
    | Post(c: G.Consumer, delivered: bool)
    | Finish(c: G.Consumer)
    | HandlerFails(c: G.Consumer)
    | ConsumerCrashes(c: G.Consumer)

  ghost function Init(base: nat): System {
    System(S.EmptyShard(), C.Store(map[], map[], C.Idle), Router(base, [], RouterIdle), map[], map[], base, base,
           History({}, {}, map[], map[], map[], {}))
  }

  function At(s: System, c: G.Consumer): Local {
    if c in s.locals then s.locals[c] else Scanning(0)
  }


  const MAX_INT32: nat := 0x7FFF_FFFF

  ghost predicate Enabled(s: System, step: Step) {
    match step
    case Activate(_) => true
    case SetRow(_, row) => 1 <= row.maxBlocks <= MAX_INT32
    case DeleteRow(_) => true
    case TakeBatch(data) => s.router.phase.RouterIdle? && data != [] && s.router.next + |data| <= C.TWO_TO_THE_53
    case StoreBatch => s.router.phase.Taken?
    case FlushShard => s.router.phase.Stored?
    case AckBatch => s.router.phase.Flushed?
    case RouterFails => !s.router.phase.RouterIdle?
    case FlusherStep(step) => !step.Put? && C.Enabled(s.store, step)
    case ReadBacklog(c) => At(s, c).Scanning?
    case ReadNew(c) => At(s, c).AwaitingNew? && G.NewBatch(s.shard.group, 1) != []
    case LookUp(c) => At(s, c).Busy? && At(s, c).phase.Received?
    case DropJob(c) => At(s, c).Busy? && At(s, c).phase.Missing?
    case CheckRetries(c) =>
      At(s, c).Busy? && At(s, c).phase.Checking? && At(s, c).msg.id in s.shard.group.pel
      && s.shard.group.pel[At(s, c).msg.id].owner == c
    case GiveUp(c) => At(s, c).Busy? && At(s, c).phase.GivingUp?
    case ReadCache(c) => At(s, c).Busy? && At(s, c).phase.Reading?
    case ReadDb(c) => At(s, c).Busy? && At(s, c).phase.HalfRead?
    case Post(c, _) => At(s, c).Busy? && At(s, c).phase.Sending? && At(s, c).phase.blocks != []
    case Finish(c) => At(s, c).Busy? && At(s, c).phase.Sent? && At(s, c).phase.blocks != []
    case HandlerFails(c) => At(s, c).Busy?
    case ConsumerCrashes(c) => true
  }

  function BlocksFrom(height: nat, data: seq<Data>): seq<Block> {
    seq(|data|, i requires 0 <= i < |data| => Block(height + i, data[i]))
  }

  /** Where the consumer goes on after the handler has returned. */
  function Resume(l: Local): Local
    requires l.Busy?
  {
    if l.backlog then Scanning(l.msg.id) else Scanning(0)
  }

  function SetLocal(s: System, c: G.Consumer, l: Local): System {
    s.(locals := s.locals[c := l])
  }

  function SetPhase(s: System, c: G.Consumer, p: Phase): System
    requires At(s, c).Busy?
  {
    SetLocal(s, c, At(s, c).(phase := p))
  }

  /** The blocks that the cache contributes. */
  ghost function CachedBlocks(store: C.Store, job: Job, row: Webhook): seq<Block> {
    if job.isNew then Latest(store.cache, row.maxBlocks)
    else Range(store.cache, job.height, C.U64(job.height + row.maxBlocks - 1))
  }

  /** The blocks that are sent once the database has been read, too. */
  ghost function BlocksToSend(cached: seq<Block>, db: Table, job: Job, row: Webhook): seq<Block> {
    if job.isNew then L.FinishLatestBlocks(cached, db, row.maxBlocks)
    else C.FinishGetBlocks(cached, db, job.height, C.U64(job.height + row.maxBlocks - 1))
  }

  /** The job after a delivery: it goes on behind the last block of the request. */
  function NextJob(job: Job, blocks: seq<Block>): Job
    requires blocks != []
  {
    Job(job.id, blocks[|blocks| - 1].height + 1, false)
  }

  function SkipJob(job: Job): Job {
    Job(job.id, job.height + 1, job.isNew)
  }

  function Attempts(s: System, m: G.Msg<Job>): nat {
    if m in s.history.attempts then s.history.attempts[m] else 0
  }

  function Postings(id: WebhookId, blocks: seq<Block>): set<(WebhookId, Block)> {
    set b | b in blocks :: (id, b)
  }

  /** The heights that the webhook of a job has heard of once the blocks have been delivered for it. */
  function Hear(heard: map<WebhookId, set<nat>>, job: Job, blocks: seq<Block>): map<WebhookId, set<nat>> {
    if job.isNew then heard[job.id := HeardBy(heard, job.id) + Heights(blocks)] else heard
  }

  function HeardBy(heard: map<WebhookId, set<nat>>, id: WebhookId): set<nat> {
    if id in heard then heard[id] else {}
  }

  ghost function Do(s: System, step: Step): System
    requires Enabled(s, step)
  {
    match step
    case Activate(ids) => s.(shard := S.Activate(s.shard, ids))
    case SetRow(id, row) => s.(rows := s.rows[id := row])
    case DeleteRow(id) => s.(rows := s.rows - {id})
    case TakeBatch(data) =>
      s.(router := Router(s.router.next + |data|, BlocksFrom(s.router.next, data), Taken))
    case StoreBatch =>
      s.(store := C.Do(s.store, C.Put(s.router.batch)), router := s.router.(phase := Stored), tip := s.router.next)
    case FlushShard => DoFlush(s)
    case AckBatch => s.(router := Router(s.router.next, [], RouterIdle))
    case RouterFails => s.(router := s.router.(phase := Taken))
    case FlusherStep(step) => s.(store := C.Do(s.store, step))
    case ReadBacklog(c) => DoReadBacklog(s, c)
    case ReadNew(c) =>
      var m := G.NewBatch(s.shard.group, 1)[0];
      SetLocal(s.(shard := s.shard.(group := G.ReadNew(s.shard.group, c, 1))), c, Busy(m, false, Received))
    case LookUp(c) =>
      var l := At(s, c);
      var id := l.msg.data.id;
      SetPhase(s, c, if id !in s.rows then Missing else if l.backlog then Checking(s.rows[id]) else Reading(s.rows[id]))
    case DropJob(c) => DoDrop(s, c)
    case CheckRetries(c) =>
      var row := At(s, c).phase.row;
      SetPhase(s, c, if s.shard.group.pel[At(s, c).msg.id].count >= row.maxRetries then GivingUp else Reading(row))
    case GiveUp(c) => DoGiveUp(s, c)
    case ReadCache(c) =>
      var l := At(s, c);
      SetPhase(s, c, HalfRead(l.phase.row, CachedBlocks(s.store, l.msg.data, l.phase.row), s.store, s.tip))
    case ReadDb(c) =>
      var l := At(s, c);
      SetPhase(s, c, Sending(BlocksToSend(l.phase.cached, s.store.db, l.msg.data, l.phase.row)))
    case Post(c, delivered) => DoPost(s, c, delivered)
    case Finish(c) => DoFinish(s, c)
    case HandlerFails(c) => SetLocal(s, c, Resume(At(s, c)))
    case ConsumerCrashes(c) => SetLocal(s, c, Scanning(0))
  }

  ghost function DoFlush(s: System): System {
    var height := if s.router.next > 0 then s.router.next - 1 else 0;
    s.(shard := S.Flush(s.shard, height), router := s.router.(phase := Flushed))
  }

  ghost function DoReadBacklog(s: System, c: G.Consumer): System
    requires At(s, c).Scanning?
  {
    var cursor := At(s, c).cursor;
    var batch := G.BacklogBatch(s.shard.group, c, cursor, 1);
    var r := s.(shard := s.shard.(group := G.ReadBacklog(s.shard.group, c, cursor, 1)));
    SetLocal(r, c, if batch != [] then Busy(batch[0], true, Received) else if cursor == 0 then AwaitingNew else Scanning(0))
  }

  ghost function DoDrop(s: System, c: G.Consumer): System
    requires At(s, c).Busy?
  {
    var m := At(s, c).msg;
    var history := s.history.(first := s.history.first - {m.data.id}, heard := s.history.heard - {m.data.id},
                              dropped := s.history.dropped + {m.data.id});
    SetLocal(s.(shard := S.Drop(s.shard, m.id, m.data.id), history := history), c, Resume(At(s, c)))
  }

  ghost function DoGiveUp(s: System, c: G.Consumer): System
    requires At(s, c).Busy?
  {
    var m := At(s, c).msg;
    var skipped := if m.data.isNew then s.history.skipped else s.history.skipped + {(m.data.id, m.data.height)};
    SetLocal(s.(shard := S.Reschedule(s.shard, m.id, SkipJob(m.data)), history := s.history.(skipped := skipped)),
             c, Resume(At(s, c)))
  }

  ghost function DoPost(s: System, c: G.Consumer, delivered: bool): System
    requires At(s, c).Busy? && At(s, c).phase.Sending?
  {
    var m, blocks := At(s, c).msg, At(s, c).phase.blocks;
    var tried := s.history.(attempts := s.history.attempts[m := Attempts(s, m) + 1]);
    if delivered
    then SetPhase(s.(history := tried.(posted := s.history.posted + Postings(m.data.id, blocks),
                                       heard := Hear(s.history.heard, m.data, blocks))), c, Sent(blocks))
    else SetLocal(s.(history := tried), c, Resume(At(s, c)))
  }

  ghost function DoFinish(s: System, c: G.Consumer): System
    requires At(s, c).Busy? && At(s, c).phase.Sent? && At(s, c).phase.blocks != []
  {
    var m, blocks := At(s, c).msg, At(s, c).phase.blocks;
    var first := if m.data.isNew then s.history.first[m.data.id := blocks[|blocks| - 1].height] else s.history.first;
    SetLocal(s.(shard := S.Reschedule(s.shard, m.id, NextJob(m.data, blocks)), history := s.history.(first := first)),
             c, Resume(At(s, c)))
  }

  // ----- Runs -----

  ghost predicate IsRun(s: System, steps: seq<Step>)
    decreases |steps|
  {
    steps == [] || (Enabled(s, steps[0]) && IsRun(Do(s, steps[0]), steps[1..]))
  }

  ghost function After(s: System, steps: seq<Step>): System
    requires IsRun(s, steps)
    decreases |steps|
  {
    if steps == [] then s else After(Do(s, steps[0]), steps[1..])
  }
}
