/** How often one stream message is POSTed. */
module SchedulerRetries {
  // Every read of a message raises its delivery count before the handler runs, and a handler that got the message from
  // its backlog sends nothing once the count has reached the limit.

  import opened PendingSet
  import opened BlockTables
  import opened Scheduler
  import opened SchedulerOwnership
  import S = WebhookShard
  import G = RedisGroup

  /** The most POSTs for one message of a webhook whose retry limit is `maxRetries`. */
  function MostPosts(maxRetries: int): nat {
    if maxRetries <= 2 then 1 else maxRetries - 1
  }

  /** The retry limit of one webhook does not change. */
  ghost predicate KeepsLimit(step: Step, w: WebhookId, limit: int) {
    step.SetRow? && step.id == w ==> step.row.maxRetries == limit
  }

  ghost predicate MsgOk(s: System, w: WebhookId, m: G.Msg<Job>) {
    m.data.id == w ==> Attempts(s, m) <= if m.id in s.shard.group.pel then s.shard.group.pel[m.id].count else 0
  }

  predicate BeforePost(p: Phase) {
    !p.Sent? && !p.Missing?
  }

  predicate MaySend(p: Phase) {
    p.Reading? || p.HalfRead? || p.Sending?
  }

  /** One delivery is not used up yet before the POST, and it is one of those that may be used for a POST. */
  ghost predicate UnusedDelivery(s: System, w: WebhookId, limit: int, l: Local)
    requires l.Busy?
  {
    l.msg.data.id == w ==>
      && l.msg.id in s.shard.group.pel
      && var count := s.shard.group.pel[l.msg.id].count;
      && (BeforePost(l.phase) ==> Attempts(s, l.msg) < count)
      && (!l.backlog ==> count == 1)
      && (l.backlog && MaySend(l.phase) ==> count < limit)
      && (l.phase.Checking? ==> l.backlog && l.phase.row.maxRetries == limit)
  }

  ghost predicate LocalOk(s: System, w: WebhookId, limit: int, c: G.Consumer) {
    At(s, c).Busy? ==> UnusedDelivery(s, w, limit, At(s, c))
  }

  ghost predicate AttemptsOk(s: System, w: WebhookId, limit: int) {
    forall m :: m in s.history.attempts && m.data.id == w ==>
      s.history.attempts[m] <= MostPosts(limit) && m.id < s.shard.group.nextId
  }

  ghost predicate Inv(s: System, w: WebhookId, limit: int) {
    && (w in s.rows ==> s.rows[w].maxRetries == limit)
    && AttemptsOk(s, w, limit)
    && (forall m :: m in s.shard.group.entries ==> MsgOk(s, w, m))
    && (forall c :: LocalOk(s, w, limit, c))
  }

  /** Entries that are pending for others are left as they are, delivery count included. */
  ghost predicate CountsKept(g: G.Group<Job>, g': G.Group<Job>, c: G.Consumer) {
    forall id :: id in g.pel && g.pel[id].owner != c ==> id in g'.pel && g'.pel[id] == g.pel[id]
  }

  lemma LocalsKept(s: System, s': System, w: WebhookId, limit: int, c: G.Consumer)
    requires OwnInv(s) && forall d :: LocalOk(s, w, limit, d)
    requires CountsKept(s.shard.group, s'.shard.group, c)
    requires forall d :: d != c ==> At(s', d) == At(s, d)
    requires forall m :: m in s.shard.group.entries && m.id in s.shard.group.pel && s.shard.group.pel[m.id].owner != c ==>
               Attempts(s', m) == Attempts(s, m)
    requires LocalOk(s', w, limit, c)
    ensures forall d :: LocalOk(s', w, limit, d)
  {
    forall d ensures LocalOk(s', w, limit, d) {
      if d != c && At(s', d).Busy? {
        assert At(s', d) == At(s, d);
        assert LocalOk(s, w, limit, d);
        assert Holds(s, d);
      }
    }
  }

  // ----- Steps that leave the stream and the handlers alone -----

  lemma QuietStepKeeps(s: System, s': System, w: WebhookId, limit: int)
    requires Inv(s, w, limit)
    requires s'.shard.group == s.shard.group && s'.locals == s.locals && s'.history.attempts == s.history.attempts
    requires w in s'.rows ==> s'.rows[w].maxRetries == limit
    ensures Inv(s', w, limit)
  {
    forall m | m in s'.shard.group.entries ensures MsgOk(s', w, m) {
      assert MsgOk(s, w, m);
    }
    forall c ensures LocalOk(s', w, limit, c) {
      assert LocalOk(s, w, limit, c);
      assert At(s', c) == At(s, c);
    }
  }

  lemma FlushKeeps(s: System, w: WebhookId, limit: int)
    requires Inv(s, w, limit) && OwnInv(s) && Enabled(s, FlushShard)
    ensures Inv(Do(s, FlushShard), w, limit)
  {
    var height := if s.router.next > 0 then s.router.next - 1 else 0;
    var r := Do(s, FlushShard);
    var jobs := S.Members(s.shard.pending[..S.CountBelow(s.shard.pending, height)]);
    G.XAddAllAppends(s.shard.group, jobs);
    forall m | m in r.shard.group.entries ensures MsgOk(r, w, m) {
      var i :| 0 <= i < |r.shard.group.entries| && r.shard.group.entries[i] == m;
      if i < |s.shard.group.entries| {
        assert m == s.shard.group.entries[i];
        assert MsgOk(s, w, m);
      } else {
        assert m.id >= s.shard.group.nextId;
      }
    }
    forall c ensures LocalOk(r, w, limit, c) {
      assert LocalOk(s, w, limit, c);
      assert At(r, c) == At(s, c);
    }
  }

  // ----- Reads -----

  lemma ReadBacklogKeeps(s: System, w: WebhookId, limit: int, c: G.Consumer)
    requires Inv(s, w, limit) && OwnInv(s) && Enabled(s, ReadBacklog(c))
    ensures Inv(Do(s, ReadBacklog(c)), w, limit)
  {
    var g, cursor := s.shard.group, At(s, c).cursor;
    var batch := G.BacklogBatch(g, c, cursor, 1);
    var r := Do(s, ReadBacklog(c));
    BacklogOwned(g, c, cursor);
    BacklogCounts(g, c, cursor);
    forall m | m in r.shard.group.entries ensures MsgOk(r, w, m) {
      assert MsgOk(s, w, m);
    }
    if batch != [] {
      assert MsgOk(s, w, batch[0]);
    }
    LocalsKept(s, r, w, limit, c);
  }

  lemma BacklogCounts(g: G.Group<Job>, c: G.Consumer, cursor: nat)
    requires G.Valid(g)
    ensures var batch := G.BacklogBatch(g, c, cursor, 1);
            var g' := G.ReadBacklog(g, c, cursor, 1);
            && CountsKept(g, g', c)
            && (forall id :: id in g.pel ==> id in g'.pel && g'.pel[id].count >= g.pel[id].count)
            && (batch != [] ==> batch[0].id in g.pel && g'.pel[batch[0].id].count == g.pel[batch[0].id].count + 1)
  {
    var batch := G.BacklogBatch(g, c, cursor, 1);
    G.BacklogBatchExact(g, c, cursor, 1);
    G.ReadBacklogExact(g, c, cursor, 1);
    if batch != [] {
      assert batch[0] in batch;
    }
  }

  lemma ReadNewKeeps(s: System, w: WebhookId, limit: int, c: G.Consumer)
    requires Inv(s, w, limit) && OwnInv(s) && Enabled(s, ReadNew(c))
    ensures Inv(Do(s, ReadNew(c)), w, limit)
  {
    var g := s.shard.group;
    var r := Do(s, ReadNew(c));
    NewCounts(g, c);
    forall m | m in r.shard.group.entries ensures MsgOk(r, w, m) {
      assert MsgOk(s, w, m);
    }
    assert MsgOk(s, w, G.NewBatch(g, 1)[0]);
    LocalsKept(s, r, w, limit, c);
  }

  lemma NewCounts(g: G.Group<Job>, c: G.Consumer)
    requires G.Valid(g) && G.NewBatch(g, 1) != []
    ensures var m := G.NewBatch(g, 1)[0];
            var g' := G.ReadNew(g, c, 1);
            && CountsKept(g, g', c)
            && (forall id :: id in g.pel ==> id in g'.pel && g'.pel[id] == g.pel[id])
            && m in g.entries && m.id !in g.pel && m.id in g'.pel && g'.pel[m.id].count == 1
            && g'.entries == g.entries && g'.nextId == g.nextId
  {
    var batch := G.NewBatch(g, 1);
    G.NewBatchExact(g, 1);
    G.ReadNewExact(g, c, 1);
    assert batch[0] in batch;
  }

  // ----- The handler -----

  /** Steps inside the handler that only move it on. */
  lemma HandlerStepKeeps(s: System, s': System, w: WebhookId, limit: int, c: G.Consumer)
    requires Inv(s, w, limit)
    requires s'.shard == s.shard && s'.rows == s.rows && s'.history == s.history
    requires forall d :: d != c ==> At(s', d) == At(s, d)
    requires LocalOk(s', w, limit, c)
    ensures Inv(s', w, limit)
  {
    forall m | m in s'.shard.group.entries ensures MsgOk(s', w, m) {
      assert MsgOk(s, w, m);
    }
    forall d ensures LocalOk(s', w, limit, d) {
      if d != c {
        assert LocalOk(s, w, limit, d);
        assert At(s', d) == At(s, d);
      }
    }
  }

  lemma PostKeeps(s: System, w: WebhookId, limit: int, c: G.Consumer, delivered: bool)
    requires Inv(s, w, limit) && OwnInv(s) && Enabled(s, Post(c, delivered))
    ensures Inv(Do(s, Post(c, delivered)), w, limit)
  {
    var r := Do(s, Post(c, delivered));
    var l := At(s, c);
    assert LocalOk(s, w, limit, c);
    assert Holds(s, c);
    forall m ensures Attempts(r, m) == if m == l.msg then Attempts(s, m) + 1 else Attempts(s, m) {
    }
    forall m | m in r.shard.group.entries ensures MsgOk(r, w, m) {
      assert MsgOk(s, w, m);
    }
    assert l.msg.id < s.shard.group.nextId;
    LocalsKept(s, r, w, limit, c);
  }

  /** Acknowledging a message forgets its deliveries and nobody else's; a message that is added is new. */
  lemma AckKeeps(s: System, s': System, w: WebhookId, limit: int, c: G.Consumer, m: G.Msg<Job>)
    requires Inv(s, w, limit) && OwnInv(s) && Owns(s.shard.group, c, m)
    requires s'.shard.group.pel == s.shard.group.pel - {m.id} && s'.shard.group.nextId >= s.shard.group.nextId
    requires forall x :: x in s'.shard.group.entries ==>
               (x in s.shard.group.entries && x.id != m.id) || x.id >= s.shard.group.nextId
    requires s'.rows == s.rows && s'.history.attempts == s.history.attempts
    requires forall d :: d != c ==> At(s', d) == At(s, d)
    requires At(s', c).Scanning?
    ensures Inv(s', w, limit)
  {
    forall x | x in s'.shard.group.entries ensures MsgOk(s', w, x) {
      if x in s.shard.group.entries && x.id != m.id {
        assert MsgOk(s, w, x);
      }
    }
    LocalsKept(s, s', w, limit, c);
  }

  lemma DropKeeps(s: System, w: WebhookId, limit: int, c: G.Consumer)
    requires Inv(s, w, limit) && OwnInv(s) && Enabled(s, DropJob(c))
    ensures Inv(Do(s, DropJob(c)), w, limit)
  {
    assert Holds(s, c);
    S.DropExact(s.shard, At(s, c).msg);
    AckKeeps(s, Do(s, DropJob(c)), w, limit, c, At(s, c).msg);
  }

  lemma RescheduleKeeps(s: System, s': System, w: WebhookId, limit: int, c: G.Consumer, m: G.Msg<Job>, job: Job)
    requires Inv(s, w, limit) && OwnInv(s) && Owns(s.shard.group, c, m) && job.id == m.data.id
    requires s'.shard == S.Reschedule(s.shard, m.id, job)
    requires s'.rows == s.rows && s'.history.attempts == s.history.attempts
    requires forall d :: d != c ==> At(s', d) == At(s, d)
    requires At(s', c).Scanning?
    ensures Inv(s', w, limit)
  {
    S.RescheduleExact(s.shard, m, job);
    AckKeeps(s, s', w, limit, c, m);
  }

  lemma LookUpKeeps(s: System, w: WebhookId, limit: int, c: G.Consumer)
    requires Inv(s, w, limit) && Enabled(s, LookUp(c))
    ensures Inv(Do(s, LookUp(c)), w, limit)
  {
    assert LocalOk(s, w, limit, c);
    HandlerStepKeeps(s, Do(s, LookUp(c)), w, limit, c);
  }

  lemma CheckRetriesKeeps(s: System, w: WebhookId, limit: int, c: G.Consumer)
    requires Inv(s, w, limit) && Enabled(s, CheckRetries(c))
    ensures Inv(Do(s, CheckRetries(c)), w, limit)
  {
    assert LocalOk(s, w, limit, c);
    HandlerStepKeeps(s, Do(s, CheckRetries(c)), w, limit, c);
  }

  lemma ReadCacheKeeps(s: System, w: WebhookId, limit: int, c: G.Consumer)
    requires Inv(s, w, limit) && Enabled(s, ReadCache(c))
    ensures Inv(Do(s, ReadCache(c)), w, limit)
  {
    assert LocalOk(s, w, limit, c);
    HandlerStepKeeps(s, Do(s, ReadCache(c)), w, limit, c);
  }

  lemma ReadDbKeeps(s: System, w: WebhookId, limit: int, c: G.Consumer)
    requires Inv(s, w, limit) && Enabled(s, ReadDb(c))
    ensures Inv(Do(s, ReadDb(c)), w, limit)
  {
    assert LocalOk(s, w, limit, c);
    HandlerStepKeeps(s, Do(s, ReadDb(c)), w, limit, c);
  }

  lemma GiveUpKeeps(s: System, w: WebhookId, limit: int, c: G.Consumer)
    requires Inv(s, w, limit) && OwnInv(s) && Enabled(s, GiveUp(c))
    ensures Inv(Do(s, GiveUp(c)), w, limit)
  {
    assert Holds(s, c);
    var m := At(s, c).msg;
    RescheduleKeeps(s, Do(s, GiveUp(c)), w, limit, c, m, SkipJob(m.data));
  }

  lemma FinishKeeps(s: System, w: WebhookId, limit: int, c: G.Consumer)
    requires Inv(s, w, limit) && OwnInv(s) && Enabled(s, Finish(c))
    ensures Inv(Do(s, Finish(c)), w, limit)
  {
    assert Holds(s, c);
    var m := At(s, c).msg;
    RescheduleKeeps(s, Do(s, Finish(c)), w, limit, c, m, NextJob(m.data, At(s, c).phase.blocks));
  }

  lemma StepKeepsInv(s: System, step: Step, w: WebhookId, limit: int)
    requires Inv(s, w, limit) && OwnInv(s) && Enabled(s, step) && KeepsLimit(step, w, limit)
    ensures Inv(Do(s, step), w, limit)
  {
    match step
    case FlushShard => FlushKeeps(s, w, limit);
    case ReadBacklog(c) => ReadBacklogKeeps(s, w, limit, c);
    case ReadNew(c) => ReadNewKeeps(s, w, limit, c);
    case LookUp(c) => LookUpKeeps(s, w, limit, c);
    case CheckRetries(c) => CheckRetriesKeeps(s, w, limit, c);
    case ReadCache(c) => ReadCacheKeeps(s, w, limit, c);
    case ReadDb(c) => ReadDbKeeps(s, w, limit, c);
    case Post(c, delivered) => PostKeeps(s, w, limit, c, delivered);
    case DropJob(c) => DropKeeps(s, w, limit, c);
    case GiveUp(c) => GiveUpKeeps(s, w, limit, c);
    case Finish(c) => FinishKeeps(s, w, limit, c);
    case HandlerFails(c) => HandlerStepKeeps(s, Do(s, step), w, limit, c);
    case ConsumerCrashes(c) => HandlerStepKeeps(s, Do(s, step), w, limit, c);
    case _ => QuietStepKeeps(s, Do(s, step), w, limit);
  }

  ghost predicate LimitKept(steps: seq<Step>, w: WebhookId, limit: int) {
    forall step :: step in steps ==> KeepsLimit(step, w, limit)
  }

  lemma {:induction false} RunKeepsInv(s: System, steps: seq<Step>, w: WebhookId, limit: int)
    requires Inv(s, w, limit) && OwnInv(s) && IsRun(s, steps) && LimitKept(steps, w, limit)
    ensures Inv(After(s, steps), w, limit) && OwnInv(After(s, steps))
    decreases |steps|
  {
    if steps != [] {
      assert steps[0] in steps;
      StepKeepsInv(s, steps[0], w, limit);
      StepKeepsOwnInv(s, steps[0]);
      RunKeepsInv(Do(s, steps[0]), steps[1..], w, limit);
    }
  }

  /**
   Over every run in which a webhook keeps its retry limit, however often handlers fail and consumers crash,
   each of its stream messages causes at most max(1, limit - 1) POSTs.
   */
  lemma PostsAreBounded(base: nat, steps: seq<Step>, m: G.Msg<Job>, limit: int)
    requires IsRun(Init(base), steps) && LimitKept(steps, m.data.id, limit)
    ensures Attempts(After(Init(base), steps), m) <= MostPosts(limit)
  {
    InitOwnInv(base);
    RunKeepsInv(Init(base), steps, m.data.id, limit);
  }
}
