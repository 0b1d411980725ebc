/** The block relay: what it does with one message of a webhook stream, and how it drains its backlog. */
module BlockRelays {
  import opened Wrappers
  import opened BlockTables
  import opened BlockStores
  import opened PendingSet
  import opened WebhookStreams
  import opened Scheduler
  import C = CachedStore
  import G = RedisGroup
  import L = LatestBlocks
  import O = SchedulerOwnership
  import S = WebhookShard

  /** One POST, delivered or not. */
  datatype Request = Request(id: WebhookId, blocks: seq<Block>)

  /** The handler returned nil, returned an error, or panicked. */
  datatype Outcome = Returned | Failed | Panicked

  /** What the store answers for a job when nothing else happens in between. */
  ghost function BlocksFor(store: C.Store, job: Job, row: Webhook): seq<Block> {
    if job.isNew then L.GetLatestBlocks(store, row.maxBlocks)
    else C.GetBlocks(store, job.height, C.U64(job.height + row.maxBlocks - 1))
  }

  predicate Pending(g: G.Group<Job>, c: G.Consumer, id: nat) {
    id in g.pel && g.pel[id].owner == c
  }

  /** What the handler makes of a message: the webhook is gone, the entry is not pending, or the retry limit is reached. */
  datatype Decision = DropWebhook | ReportError | SkipHeight | Send(blocks: seq<Block>)

  ghost function Decide(
    store: C.Store, rows: map<WebhookId, Webhook>, g: G.Group<Job>, c: G.Consumer, m: G.Msg<Job>, backlog: bool): Decision
  {
    if m.data.id !in rows then DropWebhook
    else if backlog && !Pending(g, c, m.id) then ReportError
    else if backlog && g.pel[m.id].count >= rows[m.data.id].maxRetries then SkipHeight
    else Send(BlocksFor(store, m.data, rows[m.data.id]))
  }

  ghost function OutcomeOf(d: Decision, delivered: bool): Outcome {
    if d.ReportError? then Failed
    else if d.Send? then (if d.blocks == [] then Panicked else if delivered then Returned else Failed)
    else Returned
  }

  ghost function ShardAfter(s: S.Shard, m: G.Msg<Job>, d: Decision, delivered: bool): S.Shard {
    match d
    case DropWebhook => S.Drop(s, m.id, m.data.id)
    case ReportError => s
    case SkipHeight => S.Reschedule(s, m.id, SkipJob(m.data))
    case Send(blocks) => if blocks != [] && delivered then S.Reschedule(s, m.id, NextJob(m.data, blocks)) else s
  }

  ghost function NewRequests(m: G.Msg<Job>, d: Decision): seq<Request> {
    if d.Send? && d.blocks != [] then [Request(m.data.id, d.blocks)] else []
  }

  // ----- What a call does, branch by branch -----

  /** The block is in the cache or in the database. */
  predicate Held(store: C.Store, b: Block) {
    || (b.height in store.cache && store.cache[b.height] == b.data)
    || (b.height in store.db && store.db[b.height] == b.data)
  }

  /** A request that is worth making: for the webhook, and with blocks that are stored. */
  ghost predicate Fitting(r: Request, id: WebhookId, store: C.Store) {
    r.id == id && r.blocks != [] && forall b :: b in r.blocks ==> Held(store, b)
  }

  /** The webhook has a row, and the message may be sent: it is new, or its entry is pending below the retry limit. */
  predicate Sendable(s: S.Shard, rows: map<WebhookId, Webhook>, c: G.Consumer, m: G.Msg<Job>, backlog: bool) {
    && m.data.id in rows
    && (backlog ==> Pending(s.group, c, m.id) && s.group.pel[m.id].count < rows[m.data.id].maxRetries)
  }

  /** Nothing can be sent: the webhook is gone, or the entry is not pending, or the job is moved on past one height. */
  ghost predicate NothingSent(
    s: S.Shard, after: S.Shard, rows: map<WebhookId, Webhook>, c: G.Consumer, m: G.Msg<Job>, outcome: Outcome)
  {
    if m.data.id !in rows then after == S.Drop(s, m.id, m.data.id) && outcome.Returned?
    else if !Pending(s.group, c, m.id) then after == s && outcome.Failed?
    else after == S.Reschedule(s, m.id, Job(m.data.id, m.data.height + 1, m.data.isNew)) && outcome.Returned?
  }

  /** One request was made. Delivered or not, the job stays or goes on behind the last block. */
  ghost predicate Sent1(s: S.Shard, after: S.Shard, store: C.Store, m: G.Msg<Job>, r: Request, delivered: bool) {
    && Fitting(r, m.data.id, store)
    && after == if delivered then S.Reschedule(s, m.id, Job(m.data.id, r.blocks[|r.blocks| - 1].height + 1, false)) else s
  }

  ghost predicate HandlerDid(
    s: S.Shard, after: S.Shard, posts: seq<Request>, posts': seq<Request>, rows: map<WebhookId, Webhook>, store: C.Store,
    c: G.Consumer, m: G.Msg<Job>, backlog: bool, delivered: bool, outcome: Outcome)
  {
    if !Sendable(s, rows, c, m, backlog) then posts' == posts && NothingSent(s, after, rows, c, m, outcome)
    else if outcome.Panicked?
    then posts' == posts && after == s && BlocksFor(store, m.data, rows[m.data.id]) == []
    else
      && |posts'| == |posts| + 1 && posts <= posts' && Sent1(s, after, store, m, posts'[|posts|], delivered)
      && posts'[|posts|].blocks == BlocksFor(store, m.data, rows[m.data.id])
      && outcome == if delivered then Returned else Failed
  }

  // ----- What a round of the drain does -----

  /** The message that a round claims. */
  function Claimed(g: G.Group<Job>, c: G.Consumer, cursor: nat): G.Msg<Job>
    requires G.BacklogBatch(g, c, cursor, 1) != []
  {
    G.BacklogBatch(g, c, cursor, 1)[0]
  }

  /**
   The claimed message is counted once more, and handled. With a row and attempts left it gets exactly one request;
   without a row its webhook is dropped; at the retry limit its job moves on by one height.
   */
  ghost predicate RoundDid(
    s: S.Shard, after: S.Shard, posts: seq<Request>, posts': seq<Request>, rows: map<WebhookId, Webhook>, store: C.Store,
    c: G.Consumer, cursor: nat, panicked: bool)
  {
    && G.BacklogBatch(s.group, c, cursor, 1) != []
    && var m, read := Claimed(s.group, c, cursor), s.(group := G.ReadBacklog(s.group, c, cursor, 1));
    && Pending(read.group, c, m.id)
    && if m.data.id !in rows then posts' == posts && after == S.Drop(read, m.id, m.data.id) && !panicked
       else if read.group.pel[m.id].count >= rows[m.data.id].maxRetries
       then posts' == posts && after == S.Reschedule(read, m.id, Job(m.data.id, m.data.height + 1, m.data.isNew)) && !panicked
       else if panicked then posts' == posts && after == read && BlocksFor(store, m.data, rows[m.data.id]) == []
       else |posts'| == |posts| + 1 && posts <= posts'
            && posts'[|posts|].blocks == BlocksFor(store, m.data, rows[m.data.id])
            && (Sent1(read, after, store, m, posts'[|posts|], true) || Sent1(read, after, store, m, posts'[|posts|], false))
  }

  lemma RoundByDecision(
    s: S.Shard, posts: seq<Request>, rows: map<WebhookId, Webhook>, store: C.Store, c: G.Consumer, cursor: nat,
    delivered: bool)
    requires S.Valid(s) && G.BacklogBatch(s.group, c, cursor, 1) != []
    ensures var m, read := Claimed(s.group, c, cursor), s.(group := G.ReadBacklog(s.group, c, cursor, 1));
            var d := Decide(store, rows, read.group, c, m, true);
            RoundDid(s, ShardAfter(read, m, d, delivered), posts, posts + NewRequests(m, d), rows, store, c, cursor,
                     OutcomeOf(d, delivered).Panicked?)
  {
    var m, read := Claimed(s.group, c, cursor), s.(group := G.ReadBacklog(s.group, c, cursor, 1));
    O.BacklogOwned(s.group, c, cursor);
    DecisionDid(read, posts, rows, store, c, m, true, delivered);
  }

  lemma BlocksAreHeld(store: C.Store, job: Job, row: Webhook)
    ensures forall b :: b in BlocksFor(store, job, row) ==> Held(store, b)
  {
    if job.isNew {
      LatestAreHeld(store, row.maxBlocks);
    } else {
      RangeIsHeld(store, job.height, C.U64(job.height + row.maxBlocks - 1));
    }
  }

  lemma RangeIsHeld(store: C.Store, lo: nat, hi: nat)
    ensures forall b :: b in C.GetBlocks(store, lo, hi) ==> Held(store, b)
  {
    forall b | b in C.GetBlocks(store, lo, hi) ensures Held(store, b) {
      var cached := Range(store.cache, lo, hi);
      RangeMember(store.cache, lo, hi, b);
      RangeMember(store.db, lo, hi, b);
      if cached != [] {
        RangeMember(store.db, lo, C.U64(cached[0].height - 1), b);
      }
    }
  }

  lemma LatestAreHeld(store: C.Store, limit: nat)
    ensures forall b :: b in L.GetLatestBlocks(store, limit) ==> Held(store, b)
  {
    var cached := Latest(store.cache, limit);
    LatestShape(store.cache, limit);
    LatestShape(store.db, limit);
    if limit > 0 && |cached| != limit && cached != [] {
      var end := C.U64(cached[|cached| - 1].height - 1);
      var start := C.U64(end - C.U64(limit - |cached|) + 1);
      SortedMembers(cached + Range(store.db, start, end));
      forall b | b in Range(store.db, start, end) ensures Held(store, b) {
        RangeMember(store.db, start, end, b);
      }
    }
  }

  lemma {:induction false} SortedMembers(bs: seq<Block>)
    ensures forall b :: b in SortDescending(bs) <==> b in bs
  {
    if bs != [] {
      SortedMembers(bs[1..]);
      InsertedMembers(SortDescending(bs[1..]), bs[0]);
      assert forall b :: b in bs <==> b == bs[0] || b in bs[1..];
    }
  }

  lemma {:induction false} InsertedMembers(bs: seq<Block>, x: Block)
    ensures forall b :: b in InsertDescending(bs, x) <==> b == x || b in bs
  {
    if bs != [] && bs[0].height > x.height {
      InsertedMembers(bs[1..], x);
      assert forall b :: b in bs <==> b == bs[0] || b in bs[1..];
    }
  }

  /** The decision, the shard and the requests are those of the branch that is taken. */
  lemma DecisionDid(
    s: S.Shard, posts: seq<Request>, rows: map<WebhookId, Webhook>, store: C.Store, c: G.Consumer, m: G.Msg<Job>,
    backlog: bool, delivered: bool)
    ensures var d := Decide(store, rows, s.group, c, m, backlog);
            HandlerDid(s, ShardAfter(s, m, d, delivered), posts, posts + NewRequests(m, d), rows, store, c, m, backlog,
                       delivered, OutcomeOf(d, delivered))
  {
    if m.data.id in rows {
      BlocksAreHeld(store, m.data, rows[m.data.id]);
    }
  }

  class BlockRelay {
    const webhookStream: WebhookStream
    const blockStore: RedisOptimizedBlockStore
    var rows: map<WebhookId, Webhook>
    var requests: seq<Request>

    constructor (webhookStream: WebhookStream, blockStore: RedisOptimizedBlockStore, rows: map<WebhookId, Webhook>)
      ensures this.webhookStream == webhookStream && this.blockStore == blockStore
      ensures this.rows == rows && requests == []
    {
      this.webhookStream, this.blockStore, this.rows, requests := webhookStream, blockStore, rows, [];
    }

    /**
     The handler. `delivered` says whether the POST gets through, should there be one. DecisionDid says, branch by
     branch, what the decision does to the shard and the requests.
     */
    method HandleMessages(c: G.Consumer, msgs: seq<G.Msg<Job>>, isBacklogMsg: bool, delivered: bool)
      returns (outcome: Outcome)
      requires blockStore.Valid()
      modifies this`requests, webhookStream
      ensures msgs == [] ==>
                outcome.Returned? && webhookStream.State() == old(webhookStream.State()) && requests == old(requests)
      ensures msgs != [] ==>
                var d := Decide(blockStore.State(), rows, old(webhookStream.group), c, msgs[0], isBacklogMsg);
                && outcome == OutcomeOf(d, delivered)
                && webhookStream.State() == ShardAfter(old(webhookStream.State()), msgs[0], d, delivered)
                && requests == old(requests) + NewRequests(msgs[0], d)
    {
      if |msgs| == 0 {
        return Returned;
      }
      var msg := msgs[0];
      ghost var d := Decide(blockStore.State(), rows, webhookStream.group, c, msg, isBacklogMsg);
      if msg.data.id !in rows {
        assert d == DropWebhook;
        webhookStream.XAckDel(msg, None);
        return Returned;
      }
      var webhook := rows[msg.data.id];
      if isBacklogMsg {
        var retryCount := webhookStream.GetPendingMsg(c, msg.id);
        if retryCount.None? {
          assert d == ReportError;
          return Failed;
        }
        if retryCount.value >= webhook.maxRetries {
          assert d == SkipHeight;
          webhookStream.XAckDel(msg, Some(Job(msg.data.id, msg.data.height + 1, msg.data.isNew)));
          return Returned;
        }
      }
      var blocks := ReadBlocks(msg.data, webhook);
      assert d == Send(blocks);
      outcome := SendBlocks(msg, blocks, delivered);
    }

    method SendBlocks(msg: G.Msg<Job>, blocks: seq<Block>, delivered: bool) returns (outcome: Outcome)
      modifies this`requests, webhookStream
      ensures outcome == OutcomeOf(Send(blocks), delivered)
      ensures webhookStream.State() == ShardAfter(old(webhookStream.State()), msg, Send(blocks), delivered)
      ensures requests == old(requests) + NewRequests(msg, Send(blocks))
      ensures outcome == if blocks == [] then Panicked else if delivered then Returned else Failed
      ensures requests == old(requests) + if blocks == [] then [] else [Request(msg.data.id, blocks)]
      ensures webhookStream.State()
              == if outcome.Returned?
                 then S.Reschedule(old(webhookStream.State()), msg.id, Job(msg.data.id, blocks[|blocks| - 1].height + 1, false))
                 else old(webhookStream.State())
    {
      if |blocks| == 0 {
        return Panicked;
      }
      requests := requests + [Request(msg.data.id, blocks)];
      if !delivered {
        return Failed;
      }
      var nextBlockHeight := blocks[|blocks| - 1].height + 1;
      webhookStream.XAckDel(msg, Some(Job(msg.data.id, nextBlockHeight, false)));
      return Returned;
    }

    method ReadBlocks(job: Job, webhook: Webhook) returns (blocks: seq<Block>)
      requires blockStore.Valid()
      ensures blocks == BlocksFor(blockStore.State(), job, webhook)
    {
      if job.isNew {
        blocks := blockStore.GetLatestBlocks(webhook.maxBlocks);
      } else {
        blocks := blockStore.GetBlocks(job.height, C.U64(job.height + webhook.maxBlocks - 1));
      }
    }

    /**
     The backlog loop: one message at a time, from a cursor that wraps around once it has passed the last one.
     Any POST may fail. Unless a call panics, the loop ends, and then nothing is pending for the consumer, and every
     message that had attempts left got a request. No webhook that has a row is dropped. The work left bounds the
     requests that are sent.
     */
    method ProcessBacklogMsgs(c: G.Consumer) returns (drained: bool)
      requires blockStore.Valid() && S.Valid(webhookStream.State())
      modifies this`requests, webhookStream
      ensures S.Valid(webhookStream.State())
      ensures drained ==> O.OwnsNothing(webhookStream.group, c)
      ensures NothingPanics(old(webhookStream.group), rows, blockStore.State(), c) ==> drained
      ensures O.OthersUntouched(old(webhookStream.group), webhookStream.group, c)
      ensures |requests| <= |old(requests)| + WorkOf(old(webhookStream.group), rows, c)
      ensures old(requests) <= requests
      ensures forall id :: id in rows && id in old(webhookStream.webhooks) ==> id in webhookStream.webhooks
      ensures drained ==>
                forall m :: m in old(webhookStream.group.entries) && HasAttempts(old(webhookStream.group), rows, c, m) ==>
                  exists i :: |old(requests)| <= i < |requests| && Fitting(requests[i], m.data.id, blockStore.State())
    {
      ghost var g0, store := webhookStream.group, blockStore.State();
      var cursor := 0;
      while true
        invariant blockStore.Valid() && blockStore.State() == store && S.Valid(webhookStream.State())
        invariant Progress(g0, |old(requests)|, webhookStream.group, |requests|, rows, store, c)
        invariant KeepsRows(old(webhookStream.webhooks), webhookStream.webhooks, rows)
        invariant old(requests) <= requests
        invariant Serves(g0, webhookStream.group, |old(requests)|, requests, rows, store, c)
        decreases WorkOf(webhookStream.group, rows, c), if cursor != 0 then 1 else 0
      {
        ghost var s, posts := webhookStream.State(), requests;
        var last, panicked := ProcessBacklogMsg(c, cursor);
        if last.Some? {
          RoundProgress(g0, |old(requests)|, s, webhookStream.State(), posts, requests, rows, store, c, cursor, panicked);
          RoundServes(g0, s, webhookStream.State(), |old(requests)|, posts, requests, rows, store, c, cursor, panicked);
        }
        if last.None? {
          if cursor == 0 {
            return true;
          }
          cursor := 0;
          continue;
        }
        if panicked {
          return false;
        }
        cursor := last.value;
      }
    }

    /** Claims the next message behind the cursor, if there is one, and handles it. */
    method ProcessBacklogMsg(c: G.Consumer, cursor: nat) returns (last: Option<nat>, panicked: bool)
      requires blockStore.Valid() && S.Valid(webhookStream.State())
      modifies this`requests, webhookStream
      ensures S.Valid(webhookStream.State())
      ensures last.None? ==>
                && webhookStream.State() == old(webhookStream.State()) && requests == old(requests)
                && (cursor == 0 ==> O.OwnsNothing(webhookStream.group, c))
      ensures last.Some? ==>
                RoundDid(old(webhookStream.State()), webhookStream.State(), old(requests), requests, rows,
                         blockStore.State(), c, cursor, panicked)
      ensures last.Some? ==> last.value == Claimed(old(webhookStream.group), c, cursor).id
      ensures last.Some? && !panicked ==> WorkOf(webhookStream.group, rows, c) < WorkOf(old(webhookStream.group), rows, c)
    {
      ghost var s, store := webhookStream.State(), blockStore.State();
      panicked := false;
      var msgs := webhookStream.ReadBacklog(c, cursor, 1);
      if |msgs| == 0 {
        NothingRead(s, rows, c, cursor);
        return None, false;
      }
      var delivered: bool := *;
      var outcome := HandleMessages(c, msgs, true, delivered);
      RoundOutcome(s, webhookStream.State(), old(requests), requests, rows, store, c, cursor, delivered, outcome);
      return Some(msgs[|msgs| - 1].id), outcome.Panicked?;
    }
  }

  // ----- The handler is a sequence of the scheduler's steps -----

  lemma TwoReadsOfOneStore(store: C.Store, job: Job, row: Webhook)
    requires 1 <= row.maxBlocks <= MAX_INT32 && job.height <= C.TWO_TO_THE_53
    ensures BlocksToSend(CachedBlocks(store, job, row), store.db, job, row) == BlocksFor(store, job, row)
  {
  }

  /** The shard, the requests that were delivered and the attempts are as after a call of the handler. */
  ghost predicate HandledAs(s: System, r: System, m: G.Msg<Job>, d: Decision, delivered: bool) {
    var requests := NewRequests(m, d);
    && r.shard == ShardAfter(s.shard, m, d, delivered)
    && r.history.posted == s.history.posted
                           + (if requests != [] && delivered then Postings(requests[0].id, requests[0].blocks) else {})
    && r.history.attempts == (if requests != [] then s.history.attempts[m := Attempts(s, m) + 1] else s.history.attempts)
  }

  /** The steps behind the lookup of the webhook. A panic ends the process. */
  function StepsFor(c: G.Consumer, d: Decision, backlog: bool, delivered: bool): seq<Step> {
    match d
    case DropWebhook => [DropJob(c)]
    case ReportError => [HandlerFails(c)]
    case SkipHeight => [CheckRetries(c), GiveUp(c)]
    case Send(blocks) => (if backlog then [CheckRetries(c)] else []) + SendSteps(c, blocks, delivered)
  }

  function SendSteps(c: G.Consumer, blocks: seq<Block>, delivered: bool): seq<Step> {
    if blocks == [] then [ReadCache(c), ReadDb(c), ConsumerCrashes(c)]
    else if delivered then [ReadCache(c), ReadDb(c), Post(c, true), Finish(c)]
    else [ReadCache(c), ReadDb(c), Post(c, false)]
  }

  ghost predicate Leads(s: System, steps: seq<Step>, r: System) {
    IsRun(s, steps) && After(s, steps) == r
  }

  lemma OneStep(s: System, step: Step, s': System, rest: seq<Step>, r: System)
    requires Enabled(s, step) && s' == Do(s, step) && Leads(s', rest, r)
    ensures Leads(s, [step] + rest, r)
  {
    assert ([step] + rest)[1..] == rest;
  }

  lemma LastStep(s: System, step: Step, r: System)
    requires Enabled(s, step) && r == Do(s, step)
    ensures Leads(s, [step], r)
  {
    OneStep(s, step, r, [], r);
    assert [step] + [] == [step];
  }

  /** Steps of the handler that only look something up. */
  lemma LookedUp(s: System, s': System, r: System, m: G.Msg<Job>, d: Decision, delivered: bool)
    requires s'.shard == s.shard && s'.history == s.history && HandledAs(s', r, m, d, delivered)
    ensures HandledAs(s, r, m, d, delivered)
  {
  }

  lemma DeliveredSteps(s: System, c: G.Consumer, m: G.Msg<Job>, backlog: bool, blocks: seq<Block>) returns (r: System)
    requires At(s, c) == Busy(m, backlog, Sending(blocks)) && blocks != []
    ensures Leads(s, [Post(c, true), Finish(c)], r)
    ensures HandledAs(s, r, m, Send(blocks), true) && At(r, c) == Resume(At(s, c))
  {
    var s1 := Do(s, Post(c, true));
    assert At(s1, c) == Busy(m, backlog, Sent(blocks));
    r := Do(s1, Finish(c));
    LastStep(s1, Finish(c), r);
    OneStep(s, Post(c, true), s1, [Finish(c)], r);
    assert [Post(c, true)] + [Finish(c)] == [Post(c, true), Finish(c)];
  }

  lemma SendingSteps(s: System, c: G.Consumer, m: G.Msg<Job>, backlog: bool, blocks: seq<Block>, delivered: bool)
    returns (r: System)
    requires At(s, c) == Busy(m, backlog, Sending(blocks)) && blocks != []
    ensures Leads(s, if delivered then [Post(c, true), Finish(c)] else [Post(c, false)], r)
    ensures HandledAs(s, r, m, Send(blocks), delivered) && At(r, c) == Resume(At(s, c))
  {
    if delivered {
      r := DeliveredSteps(s, c, m, backlog, blocks);
    } else {
      r := Do(s, Post(c, false));
      LastStep(s, Post(c, false), r);
    }
  }

  lemma BlocksRead(s: System, c: G.Consumer, m: G.Msg<Job>, backlog: bool, row: Webhook) returns (s1: System, s2: System)
    requires At(s, c) == Busy(m, backlog, Reading(row))
    requires 1 <= row.maxBlocks <= MAX_INT32 && m.data.height <= C.TWO_TO_THE_53
    ensures Enabled(s, ReadCache(c)) && s1 == Do(s, ReadCache(c))
    ensures Enabled(s1, ReadDb(c)) && s2 == Do(s1, ReadDb(c))
    ensures At(s2, c) == Busy(m, backlog, Sending(BlocksFor(s.store, m.data, row)))
    ensures s2.shard == s.shard && s2.history == s.history
  {
    TwoReadsOfOneStore(s.store, m.data, row);
    s1 := Do(s, ReadCache(c));
    assert At(s1, c) == Busy(m, backlog, HalfRead(row, CachedBlocks(s.store, m.data, row), s.store, s.tip));
    s2 := Do(s1, ReadDb(c));
  }

  lemma ReadingSteps(s: System, c: G.Consumer, m: G.Msg<Job>, backlog: bool, row: Webhook, delivered: bool)
    returns (r: System)
    requires At(s, c) == Busy(m, backlog, Reading(row))
    requires 1 <= row.maxBlocks <= MAX_INT32 && m.data.height <= C.TWO_TO_THE_53
    ensures var blocks := BlocksFor(s.store, m.data, row);
            && Leads(s, SendSteps(c, blocks, delivered), r)
            && HandledAs(s, r, m, Send(blocks), delivered)
            && At(r, c) == if blocks == [] then Scanning(0) else Resume(At(s, c))
  {
    var blocks := BlocksFor(s.store, m.data, row);
    var s1, s2 := BlocksRead(s, c, m, backlog, row);
    var rest: seq<Step>;
    if blocks == [] {
      rest, r := [ConsumerCrashes(c)], Do(s2, ConsumerCrashes(c));
      LastStep(s2, ConsumerCrashes(c), r);
    } else {
      rest := if delivered then [Post(c, true), Finish(c)] else [Post(c, false)];
      r := SendingSteps(s2, c, m, backlog, blocks, delivered);
    }
    LookedUp(s, s2, r, m, Send(blocks), delivered);
    OneStep(s1, ReadDb(c), s2, rest, r);
    OneStep(s, ReadCache(c), s1, [ReadDb(c)] + rest, r);
    assert [ReadCache(c)] + ([ReadDb(c)] + rest) == SendSteps(c, blocks, delivered);
  }

  lemma CheckedSteps(s: System, c: G.Consumer, m: G.Msg<Job>, row: Webhook, delivered: bool) returns (r: System)
    requires At(s, c) == Busy(m, true, Checking(row)) && m.data.id in s.rows && s.rows[m.data.id] == row
    requires 1 <= row.maxBlocks <= MAX_INT32 && m.data.height <= C.TWO_TO_THE_53
    requires Pending(s.shard.group, c, m.id)
    ensures var d := Decide(s.store, s.rows, s.shard.group, c, m, true);
            && Leads(s, StepsFor(c, d, true, delivered), r)
            && HandledAs(s, r, m, d, delivered)
            && At(r, c) == if OutcomeOf(d, delivered).Panicked? then Scanning(0) else Scanning(m.id)
  {
    var d := Decide(s.store, s.rows, s.shard.group, c, m, true);
    var s1 := Do(s, CheckRetries(c));
    if d.SkipHeight? {
      r := Do(s1, GiveUp(c));
      LastStep(s1, GiveUp(c), r);
      OneStep(s, CheckRetries(c), s1, [GiveUp(c)], r);
      assert [CheckRetries(c)] + [GiveUp(c)] == [CheckRetries(c), GiveUp(c)];
    } else {
      assert At(s1, c) == Busy(m, true, Reading(row));
      r := ReadingSteps(s1, c, m, true, row, delivered);
      OneStep(s, CheckRetries(c), s1, SendSteps(c, d.blocks, delivered), r);
    }
    LookedUp(s, s1, r, m, d, delivered);
  }

  lemma BacklogSteps(s: System, c: G.Consumer, m: G.Msg<Job>, row: Webhook, delivered: bool) returns (r: System)
    requires At(s, c) == Busy(m, true, Checking(row)) && m.data.id in s.rows && s.rows[m.data.id] == row
    requires 1 <= row.maxBlocks <= MAX_INT32 && m.data.height <= C.TWO_TO_THE_53
    ensures var d := Decide(s.store, s.rows, s.shard.group, c, m, true);
            && Leads(s, StepsFor(c, d, true, delivered), r)
            && HandledAs(s, r, m, d, delivered)
            && At(r, c) == if OutcomeOf(d, delivered).Panicked? then Scanning(0) else Scanning(m.id)
  {
    if Pending(s.shard.group, c, m.id) {
      r := CheckedSteps(s, c, m, row, delivered);
    } else {
      r := Do(s, HandlerFails(c));
      LastStep(s, HandlerFails(c), r);
    }
  }

  /**
   When nobody else moves, a call of the handler is a run of the scheduler's atomic steps, with the same effect
   on the shard and the same requests. What holds over every interleaving of those steps therefore holds for handlers.
   */
  lemma HandlerIsSteps(s: System, c: G.Consumer, delivered: bool)
    requires At(s, c).Busy? && At(s, c).phase.Received?
    requires forall id :: id in s.rows ==> 1 <= s.rows[id].maxBlocks <= MAX_INT32
    requires At(s, c).msg.data.height <= C.TWO_TO_THE_53
    ensures var m, backlog := At(s, c).msg, At(s, c).backlog;
            var d := Decide(s.store, s.rows, s.shard.group, c, m, backlog);
            var steps := [LookUp(c)] + StepsFor(c, d, backlog, delivered);
            && IsRun(s, steps)
            && HandledAs(s, After(s, steps), m, d, delivered)
            && At(After(s, steps), c) == if backlog && !OutcomeOf(d, delivered).Panicked? then Scanning(m.id) else Scanning(0)
  {
    var m, backlog := At(s, c).msg, At(s, c).backlog;
    var d := Decide(s.store, s.rows, s.shard.group, c, m, backlog);
    var s1 := Do(s, LookUp(c));
    assert s1.shard == s.shard && s1.store == s.store && s1.rows == s.rows && s1.history == s.history;
    var r: System;
    if d.DropWebhook? {
      r := Do(s1, DropJob(c));
      LastStep(s1, DropJob(c), r);
    } else if backlog {
      r := BacklogSteps(s1, c, m, s.rows[m.data.id], delivered);
    } else {
      r := ReadingSteps(s1, c, m, false, s.rows[m.data.id], delivered);
      assert StepsFor(c, d, false, delivered) == SendSteps(c, d.blocks, delivered);
    }
    LookedUp(s, s1, r, m, d, delivered);
    OneStep(s, LookUp(c), s1, StepsFor(c, d, backlog, delivered), r);
  }

  // ----- The work left in a backlog -----

  /** What a pending message of the consumer can still cost: its removal, and the attempts that are left. */
  function Cost(m: G.Msg<Job>, pel: map<nat, G.Delivery>, rows: map<WebhookId, Webhook>, c: G.Consumer): nat {
    if m.id !in pel || pel[m.id].owner != c then 0
    else if m.data.id in rows && rows[m.data.id].maxRetries > pel[m.id].count
    then 1 + rows[m.data.id].maxRetries - pel[m.id].count
    else 1
  }

  function Work(s: seq<G.Msg<Job>>, pel: map<nat, G.Delivery>, rows: map<WebhookId, Webhook>, c: G.Consumer): nat {
    if s == [] then 0 else Cost(s[0], pel, rows, c) + Work(s[1..], pel, rows, c)
  }

  function WorkOf(g: G.Group<Job>, rows: map<WebhookId, Webhook>, c: G.Consumer): nat {
    Work(g.entries, g.pel, rows, c)
  }

  lemma {:induction false} WorkShrinks(
    s: seq<G.Msg<Job>>, pel: map<nat, G.Delivery>, pel': map<nat, G.Delivery>, rows: map<WebhookId, Webhook>, c: G.Consumer,
    m: G.Msg<Job>)
    requires forall x :: x in s ==> Cost(x, pel', rows, c) <= Cost(x, pel, rows, c)
    ensures Work(s, pel', rows, c) <= Work(s, pel, rows, c)
    ensures m in s && Cost(m, pel', rows, c) < Cost(m, pel, rows, c) ==> Work(s, pel', rows, c) < Work(s, pel, rows, c)
  {
    if s != [] {
      assert s[0] in s;
      assert forall x :: x in s <==> x == s[0] || x in s[1..];
      WorkShrinks(s[1..], pel, pel', rows, c, m);
    }
  }

  lemma {:induction false} WorkWithout(
    s: seq<G.Msg<Job>>, pel: map<nat, G.Delivery>, rows: map<WebhookId, Webhook>, c: G.Consumer, m: G.Msg<Job>)
    ensures Work(G.Without(s, {m.id}), pel - {m.id}, rows, c) <= Work(s, pel, rows, c)
    ensures m in s ==> Work(G.Without(s, {m.id}), pel - {m.id}, rows, c) + Cost(m, pel, rows, c) <= Work(s, pel, rows, c)
  {
    if s != [] {
      assert forall x :: x in s <==> x == s[0] || x in s[1..];
      WorkWithout(s[1..], pel, rows, c, m);
      var t := G.Without(s[1..], {m.id});
      if s[0].id == m.id {
        assert G.Without(s, {m.id}) == t;
      } else {
        assert G.Without(s, {m.id}) == [s[0]] + t;
        assert ([s[0]] + t)[1..] == t;
      }
    }
  }

  lemma {:induction false} WorkConcat(
    s: seq<G.Msg<Job>>, x: G.Msg<Job>, pel: map<nat, G.Delivery>, rows: map<WebhookId, Webhook>, c: G.Consumer)
    requires x.id !in pel
    ensures Work(s + [x], pel, rows, c) == Work(s, pel, rows, c)
  {
    if s == [] {
      assert [x][1..] == [];
    } else {
      WorkConcat(s[1..], x, pel, rows, c);
      assert (s + [x])[1..] == s[1..] + [x];
    }
  }

  lemma CostFalls(
    x: G.Msg<Job>, pel: map<nat, G.Delivery>, pel': map<nat, G.Delivery>, rows: map<WebhookId, Webhook>, c: G.Consumer)
    requires x.id in pel' ==> x.id in pel && pel'[x.id].owner == pel[x.id].owner && pel'[x.id].count >= pel[x.id].count
    ensures Cost(x, pel', rows, c) <= Cost(x, pel, rows, c)
  {
  }

  /** Reading a message uses up one of its attempts, if it had any left. */
  lemma ReadCosts(g: G.Group<Job>, rows: map<WebhookId, Webhook>, c: G.Consumer, cursor: nat)
    requires G.Valid(g) && G.BacklogBatch(g, c, cursor, 1) != []
    ensures var m := G.BacklogBatch(g, c, cursor, 1)[0];
            var g' := G.ReadBacklog(g, c, cursor, 1);
            && m in g'.entries && Pending(g', c, m.id)
            && Cost(m, g'.pel, rows, c) >= 1
            && WorkOf(g', rows, c) <= WorkOf(g, rows, c)
            && (m.data.id in rows && g'.pel[m.id].count < rows[m.data.id].maxRetries ==>
                  WorkOf(g', rows, c) < WorkOf(g, rows, c))
  {
    var batch := G.BacklogBatch(g, c, cursor, 1);
    var m := batch[0];
    var g' := G.ReadBacklog(g, c, cursor, 1);
    G.BacklogBatchExact(g, c, cursor, 1);
    G.ReadBacklogExact(g, c, cursor, 1);
    assert m in batch;
    forall x | x in g.entries ensures Cost(x, g'.pel, rows, c) <= Cost(x, g.pel, rows, c) {
      CostFalls(x, g.pel, g'.pel, rows, c);
    }
    WorkShrinks(g.entries, g.pel, g'.pel, rows, c, m);
  }

  /** A message that is acknowledged costs nothing any more, and neither does the job that is added for it. */
  lemma AckCosts(s: S.Shard, rows: map<WebhookId, Webhook>, c: G.Consumer, m: G.Msg<Job>, job: Job)
    requires S.Valid(s) && m in s.group.entries && Cost(m, s.group.pel, rows, c) >= 1
    ensures WorkOf(S.Drop(s, m.id, m.data.id).group, rows, c) < WorkOf(s.group, rows, c)
    ensures WorkOf(S.Reschedule(s, m.id, job).group, rows, c) < WorkOf(s.group, rows, c)
  {
    WorkWithout(s.group.entries, s.group.pel, rows, c, m);
    var acked := G.AckDel(s.group, {m.id});
    WorkConcat(acked.entries, G.Msg(acked.nextId, job), acked.pel, rows, c);
  }

  /** The webhook of each own pending message is gone or there are blocks for it, so that no call panics. */
  ghost predicate NothingPanics(g: G.Group<Job>, rows: map<WebhookId, Webhook>, store: C.Store, c: G.Consumer) {
    forall m :: m in g.entries && Pending(g, c, m.id) && m.data.id in rows ==> BlocksFor(store, m.data, rows[m.data.id]) != []
  }

  lemma PanicsUnchanged(g: G.Group<Job>, g': G.Group<Job>, rows: map<WebhookId, Webhook>, store: C.Store, c: G.Consumer)
    requires NothingPanics(g, rows, store, c)
    requires forall m :: m in g'.entries && Pending(g', c, m.id) ==> m in g.entries && Pending(g, c, m.id)
    ensures NothingPanics(g', rows, store, c)
  {
  }

  /** What the group looks like once a message of the consumer has been acknowledged. */
  ghost predicate Acked(g: G.Group<Job>, g': G.Group<Job>, id: nat) {
    && g'.pel == g.pel - {id}
    && (forall x :: x in g.entries && x.id != id ==> x in g'.entries)
    && (forall x :: x in g'.entries && x.id in g'.pel ==> x in g.entries)
  }

  lemma AckedBy(s: S.Shard, m: G.Msg<Job>, job: Job)
    requires S.Valid(s) && m in s.group.entries && job.id == m.data.id
    ensures S.Valid(S.Drop(s, m.id, m.data.id)) && Acked(s.group, S.Drop(s, m.id, m.data.id).group, m.id)
    ensures S.Valid(S.Reschedule(s, m.id, job)) && Acked(s.group, S.Reschedule(s, m.id, job).group, m.id)
  {
    S.DropExact(s, m);
    S.RescheduleExact(s, m, job);
  }

  lemma AckTouchesNoOther(g: G.Group<Job>, read: G.Group<Job>, g': G.Group<Job>, id: nat, c: G.Consumer)
    requires O.SameOwners(g, read) && Acked(read, g', id) && Pending(read, c, id)
    ensures O.OthersUntouched(g, g', c)
    ensures forall m :: m in g'.entries && Pending(g', c, m.id) ==> m in g.entries && Pending(g, c, m.id)
  {
  }

  lemma StillPending(g: G.Group<Job>, read: G.Group<Job>, rows: map<WebhookId, Webhook>, store: C.Store, c: G.Consumer)
    requires O.SameOwners(g, read)
    ensures O.OthersUntouched(g, read, c)
    ensures NothingPanics(g, rows, store, c) ==> NothingPanics(read, rows, store, c)
  {
  }

  /** Less work is left, nobody else notices, and a backlog that cannot panic stays one. */
  ghost predicate GoodRound(
    g: G.Group<Job>, after: S.Shard, rows: map<WebhookId, Webhook>, store: C.Store, c: G.Consumer)
  {
    && S.Valid(after)
    && O.OthersUntouched(g, after.group, c)
    && WorkOf(after.group, rows, c) < WorkOf(g, rows, c)
    && (NothingPanics(g, rows, store, c) ==> NothingPanics(after.group, rows, store, c))
  }

  lemma AckRound(
    s: S.Shard, after: S.Shard, rows: map<WebhookId, Webhook>, store: C.Store, c: G.Consumer, cursor: nat,
    m: G.Msg<Job>, next: Job)
    requires S.Valid(s) && G.BacklogBatch(s.group, c, cursor, 1) != []
    requires m == G.BacklogBatch(s.group, c, cursor, 1)[0] && next.id == m.data.id
    requires var read := s.(group := G.ReadBacklog(s.group, c, cursor, 1));
             after == S.Drop(read, m.id, m.data.id) || after == S.Reschedule(read, m.id, next)
    ensures GoodRound(s.group, after, rows, store, c)
  {
    var read := s.(group := G.ReadBacklog(s.group, c, cursor, 1));
    ReadCosts(s.group, rows, c, cursor);
    S.ReadsKeepValid(s, c, cursor, 1);
    O.BacklogOwned(s.group, c, cursor);
    AckedBy(read, m, next);
    AckCosts(read, rows, c, m, next);
    AckTouchesNoOther(s.group, read.group, after.group, m.id, c);
    if NothingPanics(s.group, rows, store, c) {
      PanicsUnchanged(s.group, after.group, rows, store, c);
    }
  }

  lemma FailedRound(s: S.Shard, rows: map<WebhookId, Webhook>, store: C.Store, c: G.Consumer, cursor: nat)
    requires S.Valid(s) && G.BacklogBatch(s.group, c, cursor, 1) != []
    ensures var m := G.BacklogBatch(s.group, c, cursor, 1)[0];
            var read := s.(group := G.ReadBacklog(s.group, c, cursor, 1));
            && Pending(read.group, c, m.id)
            && S.Valid(read) && O.OthersUntouched(s.group, read.group, c)
            && (m.data.id in rows && read.group.pel[m.id].count < rows[m.data.id].maxRetries ==>
                  GoodRound(s.group, read, rows, store, c))
            && (m.data.id in rows && BlocksFor(store, m.data, rows[m.data.id]) == [] ==>
                  !NothingPanics(s.group, rows, store, c))
  {
    ReadCosts(s.group, rows, c, cursor);
    S.ReadsKeepValid(s, c, cursor, 1);
    O.BacklogOwned(s.group, c, cursor);
    StillPending(s.group, G.ReadBacklog(s.group, c, cursor, 1), rows, store, c);
  }

  /** One round of the drain, as long as the handler does not panic, makes progress whether its POST fails or not. */
  lemma RoundExact(s: S.Shard, rows: map<WebhookId, Webhook>, store: C.Store, c: G.Consumer, cursor: nat, delivered: bool)
    requires S.Valid(s) && G.BacklogBatch(s.group, c, cursor, 1) != []
    ensures var m := G.BacklogBatch(s.group, c, cursor, 1)[0];
            var read := s.(group := G.ReadBacklog(s.group, c, cursor, 1));
            var d := Decide(store, rows, read.group, c, m, true);
            var after := ShardAfter(read, m, d, delivered);
            if OutcomeOf(d, delivered).Panicked?
            then !NothingPanics(s.group, rows, store, c) && S.Valid(after) && O.OthersUntouched(s.group, after.group, c)
            else GoodRound(s.group, after, rows, store, c)
  {
    var m := G.BacklogBatch(s.group, c, cursor, 1)[0];
    var read := s.(group := G.ReadBacklog(s.group, c, cursor, 1));
    var d := Decide(store, rows, read.group, c, m, true);
    FailedRound(s, rows, store, c, cursor);
    if d.DropWebhook? {
      AckRound(s, ShardAfter(read, m, d, delivered), rows, store, c, cursor, m, m.data);
    } else if d.SkipHeight? {
      AckRound(s, ShardAfter(read, m, d, delivered), rows, store, c, cursor, m, SkipJob(m.data));
    } else if d.blocks != [] && delivered {
      AckRound(s, ShardAfter(read, m, d, delivered), rows, store, c, cursor, m, NextJob(m.data, d.blocks));
    }
  }

  lemma OthersTransitive(g: G.Group<Job>, g': G.Group<Job>, g'': G.Group<Job>, c: G.Consumer)
    requires O.OthersUntouched(g, g', c) && O.OthersUntouched(g', g'', c)
    ensures O.OthersUntouched(g, g'', c)
  {
  }

  /** Between two states of a drain: what cannot panic still cannot, and every POST was paid for with work. */
  ghost predicate Progress(
    g0: G.Group<Job>, posts0: nat, g: G.Group<Job>, posts: nat, rows: map<WebhookId, Webhook>, store: C.Store, c: G.Consumer)
  {
    && (NothingPanics(g0, rows, store, c) ==> NothingPanics(g, rows, store, c))
    && O.OthersUntouched(g0, g, c)
    && posts + WorkOf(g, rows, c) <= posts0 + WorkOf(g0, rows, c)
  }

  lemma RoundProgress(
    g0: G.Group<Job>, posts0: nat, s: S.Shard, after: S.Shard, posts: seq<Request>, posts': seq<Request>,
    rows: map<WebhookId, Webhook>, store: C.Store, c: G.Consumer, cursor: nat, panicked: bool)
    requires S.Valid(s) && RoundDid(s, after, posts, posts', rows, store, c, cursor, panicked)
    requires Progress(g0, posts0, s.group, |posts|, rows, store, c)
    ensures O.OthersUntouched(g0, after.group, c) && |posts'| <= posts0 + WorkOf(g0, rows, c)
    ensures if panicked then !NothingPanics(g0, rows, store, c)
            else Progress(g0, posts0, after.group, |posts'|, rows, store, c)
  {
    var delivered := RoundDecides(s, after, posts, posts', rows, store, c, cursor, panicked);
    RoundExact(s, rows, store, c, cursor, delivered);
    OthersTransitive(g0, s.group, after.group, c);
  }

  /** What the handler has decided for the claimed message. */
  lemma RoundOutcome(
    s: S.Shard, after: S.Shard, posts: seq<Request>, posts': seq<Request>, rows: map<WebhookId, Webhook>, store: C.Store,
    c: G.Consumer, cursor: nat, delivered: bool, outcome: Outcome)
    requires S.Valid(s) && G.BacklogBatch(s.group, c, cursor, 1) != []
    requires var read := s.(group := G.ReadBacklog(s.group, c, cursor, 1));
             var d := Decide(store, rows, read.group, c, Claimed(s.group, c, cursor), true);
             && after == ShardAfter(read, Claimed(s.group, c, cursor), d, delivered)
             && posts' == posts + NewRequests(Claimed(s.group, c, cursor), d) && outcome == OutcomeOf(d, delivered)
    ensures RoundDid(s, after, posts, posts', rows, store, c, cursor, outcome.Panicked?)
    ensures S.Valid(after)
    ensures !outcome.Panicked? ==> WorkOf(after.group, rows, c) < WorkOf(s.group, rows, c)
  {
    RoundByDecision(s, posts, rows, store, c, cursor, delivered);
    RoundExact(s, rows, store, c, cursor, delivered);
  }

  /** A round is the decision for the message it claims, with a POST that was delivered or not. */
  lemma RoundDecides(
    s: S.Shard, after: S.Shard, posts: seq<Request>, posts': seq<Request>, rows: map<WebhookId, Webhook>, store: C.Store,
    c: G.Consumer, cursor: nat, panicked: bool) returns (delivered: bool)
    requires S.Valid(s) && RoundDid(s, after, posts, posts', rows, store, c, cursor, panicked)
    ensures var m, read := Claimed(s.group, c, cursor), s.(group := G.ReadBacklog(s.group, c, cursor, 1));
            var d := Decide(store, rows, read.group, c, m, true);
            && after == ShardAfter(read, m, d, delivered) && panicked == OutcomeOf(d, delivered).Panicked?
            && |posts'| == |posts| + |NewRequests(m, d)|
  {
    var m, read := Claimed(s.group, c, cursor), s.(group := G.ReadBacklog(s.group, c, cursor, 1));
    delivered := |posts'| > |posts| && Sent1(read, after, store, m, posts'[|posts|], true);
  }

  // ----- What the drain serves -----

  /** The message is pending for the consumer, its webhook has a row, and the next read leaves it below the limit. */
  predicate HasAttempts(g: G.Group<Job>, rows: map<WebhookId, Webhook>, c: G.Consumer, m: G.Msg<Job>) {
    Pending(g, c, m.id) && m.data.id in rows && g.pel[m.id].count + 1 < rows[m.data.id].maxRetries
  }

  ghost predicate KeepsRows(before: set<WebhookId>, after: set<WebhookId>, rows: map<WebhookId, Webhook>) {
    forall id :: id in rows && id in before ==> id in after
  }

  ghost predicate Requested(from: nat, posts: seq<Request>, id: WebhookId, store: C.Store) {
    exists i :: from <= i < |posts| && Fitting(posts[i], id, store)
  }

  /** The message has not been read since. */
  ghost predicate Untouched(g0: G.Group<Job>, g: G.Group<Job>, m: G.Msg<Job>) {
    m in g.entries && m.id in g0.pel && m.id in g.pel && g.pel[m.id] == g0.pel[m.id]
  }

  /** Every message that had attempts left has not been read since, or its webhook got a request. */
  ghost predicate Serves(
    g0: G.Group<Job>, g: G.Group<Job>, from: nat, posts: seq<Request>, rows: map<WebhookId, Webhook>, store: C.Store,
    c: G.Consumer)
  {
    forall m :: m in g0.entries && HasAttempts(g0, rows, c, m) ==> Untouched(g0, g, m) || Requested(from, posts, m.data.id, store)
  }

  lemma RequestedStill(from: nat, posts: seq<Request>, posts': seq<Request>, id: WebhookId, store: C.Store)
    requires Requested(from, posts, id, store) && posts <= posts'
    ensures Requested(from, posts', id, store)
  {
    var i :| from <= i < |posts| && Fitting(posts[i], id, store);
    assert posts'[i] == posts[i];
  }

  /** A round reads one message and takes away no other. */
  lemma OthersStay(s: S.Shard, after: S.Shard, c: G.Consumer, cursor: nat, m: G.Msg<Job>, next: Job)
    requires S.Valid(s) && G.BacklogBatch(s.group, c, cursor, 1) != []
    requires m in s.group.entries && m.id in s.group.pel && m.id != Claimed(s.group, c, cursor).id
    requires next.id == Claimed(s.group, c, cursor).data.id
    requires var x, read := Claimed(s.group, c, cursor), s.(group := G.ReadBacklog(s.group, c, cursor, 1));
             after == read || after == S.Drop(read, x.id, x.data.id) || after == S.Reschedule(read, x.id, next)
    ensures m in after.group.entries && m.id in after.group.pel && after.group.pel[m.id] == s.group.pel[m.id]
  {
    var x, read := Claimed(s.group, c, cursor), s.(group := G.ReadBacklog(s.group, c, cursor, 1));
    G.ReadBacklogExact(s.group, c, cursor, 1);
    assert forall id :: id in G.IdsOf(G.BacklogBatch(s.group, c, cursor, 1)) ==> id == x.id;
    S.ReadsKeepValid(s, c, cursor, 1);
    O.BacklogOwned(s.group, c, cursor);
    AckedBy(read, x, next);
  }

  /** The job that a round leaves behind. */
  ghost function JobAfter(x: G.Msg<Job>, posts: seq<Request>, posts': seq<Request>): (next: Job)
    ensures next.id == x.data.id
  {
    if |posts'| > |posts| && posts'[|posts|].blocks != []
    then Job(x.data.id, posts'[|posts|].blocks[|posts'[|posts|].blocks| - 1].height + 1, false)
    else Job(x.data.id, x.data.height + 1, x.data.isNew)
  }

  lemma RoundKeepsOthers(
    s: S.Shard, after: S.Shard, posts: seq<Request>, posts': seq<Request>, rows: map<WebhookId, Webhook>, store: C.Store,
    c: G.Consumer, cursor: nat, panicked: bool, m: G.Msg<Job>)
    requires S.Valid(s) && RoundDid(s, after, posts, posts', rows, store, c, cursor, panicked)
    requires m in s.group.entries && m.id in s.group.pel && m.id != Claimed(s.group, c, cursor).id
    ensures m in after.group.entries && m.id in after.group.pel && after.group.pel[m.id] == s.group.pel[m.id]
  {
    OthersStay(s, after, c, cursor, m, JobAfter(Claimed(s.group, c, cursor), posts, posts'));
  }

  /** With attempts left before the read, the claimed message gets its request. */
  lemma RoundServesClaimed(
    s: S.Shard, after: S.Shard, posts: seq<Request>, posts': seq<Request>, rows: map<WebhookId, Webhook>, store: C.Store,
    c: G.Consumer, cursor: nat, m: G.Msg<Job>)
    requires S.Valid(s) && RoundDid(s, after, posts, posts', rows, store, c, cursor, false)
    requires m in s.group.entries && m.id == Claimed(s.group, c, cursor).id && HasAttempts(s.group, rows, c, m)
    ensures |posts'| == |posts| + 1 && Fitting(posts'[|posts|], m.data.id, store)
  {
    SameMessage(s, c, cursor, m);
  }

  lemma RoundServesOne(
    g0: G.Group<Job>, s: S.Shard, after: S.Shard, from: nat, posts: seq<Request>, posts': seq<Request>,
    rows: map<WebhookId, Webhook>, store: C.Store, c: G.Consumer, cursor: nat, m: G.Msg<Job>)
    requires S.Valid(s) && from <= |posts| && RoundDid(s, after, posts, posts', rows, store, c, cursor, false)
    requires HasAttempts(g0, rows, c, m) && Untouched(g0, s.group, m)
    ensures Untouched(g0, after.group, m) || Requested(from, posts', m.data.id, store)
  {
    if m.id == Claimed(s.group, c, cursor).id {
      RoundServesClaimed(s, after, posts, posts', rows, store, c, cursor, m);
    } else {
      RoundKeepsOthers(s, after, posts, posts', rows, store, c, cursor, false, m);
    }
  }

  /** The claimed message, read for the first time: its count is one more. */
  lemma SameMessage(s: S.Shard, c: G.Consumer, cursor: nat, m: G.Msg<Job>)
    requires S.Valid(s) && G.BacklogBatch(s.group, c, cursor, 1) != []
    requires m in s.group.entries && m.id in s.group.pel && m.id == Claimed(s.group, c, cursor).id
    ensures m == Claimed(s.group, c, cursor)
    ensures m.id in G.ReadBacklog(s.group, c, cursor, 1).pel
    ensures G.ReadBacklog(s.group, c, cursor, 1).pel[m.id].count == s.group.pel[m.id].count + 1
  {
    var batch := G.BacklogBatch(s.group, c, cursor, 1);
    G.BacklogBatchExact(s.group, c, cursor, 1);
    G.ReadBacklogExact(s.group, c, cursor, 1);
    assert batch[0] in batch;
    var i :| 0 <= i < |s.group.entries| && s.group.entries[i] == m;
    var j :| 0 <= j < |s.group.entries| && s.group.entries[j] == batch[0];
  }

  lemma RoundServes(
    g0: G.Group<Job>, s: S.Shard, after: S.Shard, from: nat, posts: seq<Request>, posts': seq<Request>,
    rows: map<WebhookId, Webhook>, store: C.Store, c: G.Consumer, cursor: nat, panicked: bool)
    requires S.Valid(s) && from <= |posts| && RoundDid(s, after, posts, posts', rows, store, c, cursor, panicked)
    requires Serves(g0, s.group, from, posts, rows, store, c)
    ensures posts <= posts' && KeepsRows(s.webhooks, after.webhooks, rows)
    ensures !panicked ==> Serves(g0, after.group, from, posts', rows, store, c)
  {
    if !panicked {
      forall m | m in g0.entries && HasAttempts(g0, rows, c, m)
        ensures Untouched(g0, after.group, m) || Requested(from, posts', m.data.id, store)
      {
        if Untouched(g0, s.group, m) {
          RoundServesOne(g0, s, after, from, posts, posts', rows, store, c, cursor, m);
        } else {
          RequestedStill(from, posts, posts', m.data.id, store);
        }
      }
    }
  }

  /** An empty answer changes nothing; from the start of the stream it means that nothing is pending. */
  lemma NothingRead(s: S.Shard, rows: map<WebhookId, Webhook>, c: G.Consumer, cursor: nat)
    requires S.Valid(s) && G.BacklogBatch(s.group, c, cursor, 1) == []
    ensures G.ReadBacklog(s.group, c, cursor, 1) == s.group
    ensures cursor == 0 ==> O.OwnsNothing(s.group, c)
  {
    O.BacklogOwned(s.group, c, cursor);
    assert G.ReadBacklog(s.group, c, cursor, 1).pel == s.group.pel;
  }
}
