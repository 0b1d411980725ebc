/** Who may act on which message. */
module SchedulerOwnership {
  // Every message in a handler's hands is still in the stream and pending for that consumer alone. From this it follows,
  // over every run, that each active webhook has exactly one job.

  import opened PendingSet
  import opened BlockTables
  import opened Scheduler
  import S = WebhookShard
  import G = RedisGroup

  /** The jobs that exist: waiting in the pending set or somewhere in the stream. */
  ghost predicate Live(s: S.Shard, job: Job) {
    (exists e :: e in s.pending && e.job == job) || exists m :: m in s.group.entries && m.data == job
  }

  /** The message exists and is pending for the consumer. */
  predicate Owns(g: G.Group<Job>, c: G.Consumer, m: G.Msg<Job>) {
    m in g.entries && m.id in g.pel && g.pel[m.id].owner == c
  }

  ghost predicate OwnsNothing(g: G.Group<Job>, c: G.Consumer) {
    forall id :: id in g.pel ==> g.pel[id].owner != c
  }

  ghost predicate OneEach(g: G.Group<Job>) {
    forall i, j :: i in g.pel && j in g.pel && g.pel[i].owner == g.pel[j].owner ==> i == j
  }

  ghost predicate Holds(s: System, c: G.Consumer) {
    match At(s, c)
    case Scanning(_) => true
    case AwaitingNew => OwnsNothing(s.shard.group, c)
    case Busy(m, _, _) => Owns(s.shard.group, c, m)
  }

  ghost predicate OwnInv(s: System) {
    && S.Valid(s.shard)
    && OneEach(s.shard.group)
    && forall c :: Holds(s, c)
  }

  /** What one consumer's step leaves alone: the messages that others own, and who owns what. */
  ghost predicate OthersUntouched(g: G.Group<Job>, g': G.Group<Job>, c: G.Consumer) {
    && (forall m :: m in g.entries && m.id in g.pel && g.pel[m.id].owner != c ==> m in g'.entries)
    && (forall id :: id in g.pel && g.pel[id].owner != c ==> id in g'.pel && g'.pel[id].owner == g.pel[id].owner)
    && (forall id :: id in g'.pel && g'.pel[id].owner != c ==> id in g.pel && g.pel[id].owner == g'.pel[id].owner)
  }

  lemma OthersHold(s: System, s': System, c: G.Consumer)
    requires forall d :: Holds(s, d)
    requires OthersUntouched(s.shard.group, s'.shard.group, c)
    requires forall d :: d != c ==> At(s', d) == At(s, d)
    requires Holds(s', c)
    ensures forall d :: Holds(s', d)
  {
    forall d ensures Holds(s', d) {
      if d != c {
        assert Holds(s, d);
        assert At(s', d) == At(s, d);
      }
    }
  }

  lemma SameGroup(s: System, s': System, c: G.Consumer)
    requires OwnInv(s) && s'.shard == s.shard
    requires forall d :: d != c ==> At(s', d) == At(s, d)
    requires Holds(s', c)
    ensures OwnInv(s')
  {
    OthersHold(s, s', c);
  }

  /** Scripts of other processes add messages and jobs; they take nothing from a consumer. */
  lemma GroupGrows(s: System, s': System)
    requires OwnInv(s) && S.Valid(s'.shard) && s'.locals == s.locals
    requires s'.shard.group.pel == s.shard.group.pel
    requires forall m :: m in s.shard.group.entries ==> m in s'.shard.group.entries
    ensures OwnInv(s')
  {
    forall d ensures Holds(s', d) {
      assert Holds(s, d);
      assert At(s', d) == At(s, d);
    }
  }

  lemma ActivateKeeps(s: System, ids: seq<WebhookId>)
    requires OwnInv(s)
    ensures OwnInv(Do(s, Activate(ids)))
  {
    S.ActivateExact(s.shard, ids);
    GroupGrows(s, Do(s, Activate(ids)));
  }

  lemma FlushKeeps(s: System)
    requires OwnInv(s) && Enabled(s, FlushShard)
    ensures OwnInv(Do(s, FlushShard))
  {
    var height := if s.router.next > 0 then s.router.next - 1 else 0;
    S.FlushValid(s.shard, height);
    S.FlushExact(s.shard, height);
    var r := Do(s, FlushShard);
    forall m | m in s.shard.group.entries ensures m in r.shard.group.entries {
      var i :| 0 <= i < |s.shard.group.entries| && s.shard.group.entries[i] == m;
      assert r.shard.group.entries[i] == m;
    }
    GroupGrows(s, r);
  }

  ghost predicate SameOwners(g: G.Group<Job>, g': G.Group<Job>) {
    && g'.entries == g.entries && g'.pel.Keys == g.pel.Keys
    && forall id :: id in g.pel ==> g'.pel[id].owner == g.pel[id].owner
  }

  lemma SameOwnersKeep(g: G.Group<Job>, g': G.Group<Job>, c: G.Consumer)
    requires OneEach(g) && SameOwners(g, g')
    ensures OneEach(g') && OthersUntouched(g, g', c)
  {
    assert forall id :: id in g'.pel ==> id in g.pel;
  }

  /** A backlog read finds a message of the reader's own; from the start of the stream it misses none. */
  lemma BacklogOwned(g: G.Group<Job>, c: G.Consumer, cursor: nat)
    requires G.Valid(g)
    ensures var batch := G.BacklogBatch(g, c, cursor, 1);
            && SameOwners(g, G.ReadBacklog(g, c, cursor, 1))
            && (batch != [] ==> Owns(g, c, batch[0]))
            && (batch == [] && cursor == 0 ==> OwnsNothing(g, c))
  {
    BacklogSameOwners(g, c, cursor);
    var own := G.Owned(g.entries, g.pel, c, cursor);
    G.OwnedMembers(g.entries, g.pel, c, cursor);
    if own != [] {
      assert own[0] in own;
      assert G.BacklogBatch(g, c, cursor, 1)[0] == own[0];
    } else if cursor == 0 {
      forall id | id in g.pel ensures g.pel[id].owner != c {
        var m :| m in g.entries && m.id == id;
        assert m !in own;
      }
    }
  }

  lemma BacklogSameOwners(g: G.Group<Job>, c: G.Consumer, cursor: nat)
    ensures SameOwners(g, G.ReadBacklog(g, c, cursor, 1))
  {
  }

  lemma SameOwnersStep(s: System, s': System, c: G.Consumer)
    requires OwnInv(s) && S.Valid(s'.shard) && SameOwners(s.shard.group, s'.shard.group)
    requires forall d :: d != c ==> At(s', d) == At(s, d)
    requires At(s', c).Busy? ==> Owns(s.shard.group, c, At(s', c).msg)
    requires At(s', c).AwaitingNew? ==> OwnsNothing(s.shard.group, c)
    ensures OwnInv(s')
  {
    SameOwnersKeep(s.shard.group, s'.shard.group, c);
    assert forall id :: id in s'.shard.group.pel ==> id in s.shard.group.pel;
    OthersHold(s, s', c);
  }

  lemma ReadBacklogKeeps(s: System, c: G.Consumer)
    requires OwnInv(s) && Enabled(s, ReadBacklog(c))
    ensures OwnInv(Do(s, ReadBacklog(c)))
  {
    var r := Do(s, ReadBacklog(c));
    BacklogOwned(s.shard.group, c, At(s, c).cursor);
    S.ReadsKeepValid(s.shard, c, At(s, c).cursor, 1);
    SameOwnersStep(s, r, c);
  }

  /** A new message becomes the only one that is pending for its reader. */
  lemma NewOwned(g: G.Group<Job>, c: G.Consumer)
    requires G.Valid(g) && OneEach(g) && OwnsNothing(g, c) && G.NewBatch(g, 1) != []
    ensures var g' := G.ReadNew(g, c, 1);
            && OneEach(g') && OthersUntouched(g, g', c)
            && Owns(g', c, G.NewBatch(g, 1)[0])
  {
    var batch := G.NewBatch(g, 1);
    G.NewBatchExact(g, 1);
    G.ReadNewExact(g, c, 1);
    assert batch[0] in batch;
    assert forall id :: id in G.IdsOf(batch) ==> id == batch[0].id;
  }

  lemma ReadNewKeeps(s: System, c: G.Consumer)
    requires OwnInv(s) && Enabled(s, ReadNew(c))
    ensures OwnInv(Do(s, ReadNew(c)))
  {
    assert Holds(s, c);
    NewOwned(s.shard.group, c);
    S.ReadsKeepValid(s.shard, c, 0, 1);
    OthersHold(s, Do(s, ReadNew(c)), c);
  }

  /** Acknowledging one's own message takes nothing from anybody else. */
  lemma AckKeeps(s: System, s': System, c: G.Consumer, m: G.Msg<Job>)
    requires OwnInv(s) && S.Valid(s'.shard) && Owns(s.shard.group, c, m)
    requires s'.shard.group.pel == s.shard.group.pel - {m.id}
    requires forall x :: x in s.shard.group.entries && x.id != m.id ==> x in s'.shard.group.entries
    requires forall d :: d != c ==> At(s', d) == At(s, d)
    requires At(s', c).Scanning?
    ensures OwnInv(s')
  {
    OthersHold(s, s', c);
  }

  lemma DropKeeps(s: System, c: G.Consumer)
    requires OwnInv(s) && Enabled(s, DropJob(c))
    ensures OwnInv(Do(s, DropJob(c)))
  {
    assert Holds(s, c);
    var m := At(s, c).msg;
    S.DropExact(s.shard, m);
    AckKeeps(s, Do(s, DropJob(c)), c, m);
  }

  lemma GiveUpKeeps(s: System, c: G.Consumer)
    requires OwnInv(s) && Enabled(s, GiveUp(c))
    ensures OwnInv(Do(s, GiveUp(c)))
  {
    assert Holds(s, c);
    var m := At(s, c).msg;
    S.RescheduleExact(s.shard, m, SkipJob(m.data));
    AckKeeps(s, Do(s, GiveUp(c)), c, m);
  }

  lemma FinishKeeps(s: System, c: G.Consumer)
    requires OwnInv(s) && Enabled(s, Finish(c))
    ensures OwnInv(Do(s, Finish(c)))
  {
    assert Holds(s, c);
    var m := At(s, c).msg;
    S.RescheduleExact(s.shard, m, NextJob(m.data, At(s, c).phase.blocks));
    AckKeeps(s, Do(s, Finish(c)), c, m);
  }

  lemma StepKeepsOwnInv(s: System, step: Step)
    requires OwnInv(s) && Enabled(s, step)
    ensures OwnInv(Do(s, step))
  {
    match step
    case Activate(ids) => ActivateKeeps(s, ids);
    case FlushShard => FlushKeeps(s);
    case ReadBacklog(c) => ReadBacklogKeeps(s, c);
    case ReadNew(c) => ReadNewKeeps(s, c);
    case DropJob(c) => DropKeeps(s, c);
    case GiveUp(c) => GiveUpKeeps(s, c);
    case Finish(c) => FinishKeeps(s, c);
    case LookUp(c) => assert Holds(s, c); SameGroup(s, Do(s, step), c);
    case CheckRetries(c) => assert Holds(s, c); SameGroup(s, Do(s, step), c);
    case ReadCache(c) => assert Holds(s, c); SameGroup(s, Do(s, step), c);
    case ReadDb(c) => assert Holds(s, c); SameGroup(s, Do(s, step), c);
    case Post(c, delivered) => assert Holds(s, c); SameGroup(s, Do(s, step), c);
    case HandlerFails(c) => SameGroup(s, Do(s, step), c);
    case ConsumerCrashes(c) => SameGroup(s, Do(s, step), c);
    case _ => assert Holds(s, 0); SameGroup(s, Do(s, step), 0);
  }

  lemma InitOwnInv(base: nat)
    ensures OwnInv(Init(base))
  {
  }

  lemma {:induction false} RunKeepsOwnInv(s: System, steps: seq<Step>)
    requires OwnInv(s) && IsRun(s, steps)
    ensures OwnInv(After(s, steps))
    decreases |steps|
  {
    if steps != [] {
      StepKeepsOwnInv(s, steps[0]);
      RunKeepsOwnInv(Do(s, steps[0]), steps[1..]);
    }
  }

  /**
   Over every run, with any number of consumers, failures and crashes: each id of the webhook set has exactly
   one job, waiting or in the stream, and no other id has any; a message in a handler's hands is in the hands of
   no other handler; and no consumer has more than one pending message.
   */
  lemma OneLiveJobEach(base: nat, steps: seq<Step>)
    requires IsRun(Init(base), steps)
    ensures var s := After(Init(base), steps);
            && (forall id :: S.LiveJobs(s.shard, id) == if id in s.shard.webhooks then 1 else 0)
            && (forall c, d :: c != d && At(s, c).Busy? && At(s, d).Busy? ==> At(s, c).msg.id != At(s, d).msg.id)
            && (forall c :: At(s, c).Busy? ==> Owns(s.shard.group, c, At(s, c).msg))
            && OneEach(s.shard.group)
  {
    InitOwnInv(base);
    RunKeepsOwnInv(Init(base), steps);
    var s := After(Init(base), steps);
    assert forall c :: At(s, c).Busy? ==> Holds(s, c);
  }
}
