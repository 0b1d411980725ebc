/** How the jobs move on. */
module SchedulerProgress {
  // Over every run, disciplined or not: an acknowledged request moves a job behind all that it sent, giving up moves it
  // on by one height, nothing ever moves it back, and no webhook that has a row is dropped.

  import opened PendingSet
  import opened BlockTables
  import opened Scheduler
  import opened SchedulerOwnership
  import S = WebhookShard
  import G = RedisGroup
  import C = CachedStore
  import L = LatestBlocks

  // ----- The live jobs -----

  /** Rescheduling replaces the webhook's job by the next one and touches no other job. */
  lemma ReschedulePutsNext(s: S.Shard, m: G.Msg<Job>, next: Job, job: Job)
    requires S.Valid(s) && m in s.group.entries && next.id == m.data.id
    ensures Live(S.Reschedule(s, m.id, next), job) <==> job == next || (Live(s, job) && job.id != m.data.id)
  {
    S.RescheduleExact(s, m, next);
    S.StreamJobIsAlone(s, m);
    NextIsLive(s, m, next);
    if Live(s, job) && job.id != m.data.id {
      LiveStays(s, S.Reschedule(s, m.id, next), m, job);
    }
    if Live(S.Reschedule(s, m.id, next), job) {
      NothingElseIsLive(s, m, next, job);
    }
  }

  lemma NextIsLive(s: S.Shard, m: G.Msg<Job>, next: Job)
    requires S.Valid(s) && m in s.group.entries && next.id == m.data.id
    ensures Live(S.Reschedule(s, m.id, next), next)
  {
    S.RescheduleExact(s, m, next);
    var r := S.Reschedule(s, m.id, next);
    if s.latest.None? || next.height >= s.latest.value {
      assert Entry(next.height, next) in r.pending;
    } else {
      assert G.Msg(s.group.nextId, next) in r.group.entries;
    }
  }

  lemma NothingElseIsLive(s: S.Shard, m: G.Msg<Job>, next: Job, job: Job)
    requires S.Valid(s) && m in s.group.entries && next.id == m.data.id
    requires Live(S.Reschedule(s, m.id, next), job)
    ensures job == next || (Live(s, job) && job.id != m.data.id)
  {
    S.RescheduleExact(s, m, next);
    S.StreamJobIsAlone(s, m);
    var r := S.Reschedule(s, m.id, next);
    if e :| e in r.pending && e.job == job {
      assert e in s.pending || e == Entry(next.height, next);
    } else {
      var x :| x in r.group.entries && x.data == job;
      assert x in s.group.entries || x == G.Msg(s.group.nextId, next);
    }
  }

  lemma LiveStays(s: S.Shard, r: S.Shard, m: G.Msg<Job>, job: Job)
    requires Live(s, job) && job.id != m.data.id
    requires forall e :: e in s.pending && e.job.id != m.data.id ==> e in r.pending
    requires forall x :: x in s.group.entries && x.data.id != m.data.id ==> x in r.group.entries
    ensures Live(r, job)
  {
    if e :| e in s.pending && e.job == job {
      assert e in r.pending;
    } else {
      var x :| x in s.group.entries && x.data == job;
      assert x in r.group.entries;
    }
  }

  lemma DropTakesOne(s: S.Shard, m: G.Msg<Job>, job: Job)
    requires S.Valid(s) && m in s.group.entries
    ensures Live(S.Drop(s, m.id, m.data.id), job) <==> Live(s, job) && job.id != m.data.id
  {
    S.DropExact(s, m);
    S.StreamJobIsAlone(s, m);
    var r := S.Drop(s, m.id, m.data.id);
    if Live(s, job) && job.id != m.data.id {
      LiveStays(s, r, m, job);
    }
    if Live(r, job) {
      if x :| x in r.group.entries && x.data == job {
        assert x in s.group.entries && x.id != m.id;
      } else {
        var e :| e in r.pending && e.job == job;
        assert e in s.pending;
      }
    }
  }

  lemma FlushKeepsJobs(s: S.Shard, height: nat, job: Job)
    requires S.Valid(s)
    ensures Live(S.Flush(s, height), job) <==> Live(s, job)
  {
    var r := S.Flush(s, height);
    S.FlushExact(s, height);
    if x :| x in r.group.entries && x.data == job {
      S.FlushSources(s, height, x);
    }
    if e :| e in s.pending && e.job == job {
      if e.score >= height {
        assert e in r.pending;
      } else {
        S.FlushWakes(s, height, e);
      }
    }
    if x :| x in s.group.entries && x.data == job {
      var i :| 0 <= i < |s.group.entries| && s.group.entries[i] == x;
      assert r.group.entries[i] == x;
    }
  }

  lemma ActivateAddsFresh(s: S.Shard, ids: seq<WebhookId>, job: Job)
    requires S.Valid(s)
    ensures Live(S.Activate(s, ids), job)
            <==> Live(s, job) || (job == S.FreshJob(job.id) && job.id in ids && job.id !in s.webhooks)
  {
    S.ActivateExact(s, ids);
    var r := S.Activate(s, ids);
    if e :| e in s.pending && e.job == job {
      assert e in r.pending;
    }
    if job == S.FreshJob(job.id) && job.id in ids && job.id !in s.webhooks {
      assert Entry(0, job) in r.pending;
    }
  }

  // ----- The two steps that move a job on -----

  /** Giving up leaves the webhook with one job, one height further, new if it was new; other webhooks keep theirs. */
  lemma GiveUpMovesOn(s: System, c: G.Consumer, job: Job)
    requires OwnInv(s) && Enabled(s, GiveUp(c))
    ensures var m, r := At(s, c).msg, Do(s, GiveUp(c));
            && Live(s.shard, m.data)
            && (job.id == m.data.id ==>
                  (Live(r.shard, job) <==> job == Job(m.data.id, m.data.height + 1, m.data.isNew)))
            && (job.id != m.data.id ==> (Live(r.shard, job) <==> Live(s.shard, job)))
  {
    assert Holds(s, c);
    var m := At(s, c).msg;
    ReschedulePutsNext(s.shard, m, SkipJob(m.data), job);
  }

  /** An acknowledged request leaves the webhook with one job, established, one height behind the last block. */
  lemma FinishMovesOn(s: System, c: G.Consumer, job: Job)
    requires OwnInv(s) && Enabled(s, Finish(c))
    ensures var m, blocks, r := At(s, c).msg, At(s, c).phase.blocks, Do(s, Finish(c));
            && Live(s.shard, m.data)
            && (job.id == m.data.id ==>
                  (Live(r.shard, job) <==> job == Job(m.data.id, blocks[|blocks| - 1].height + 1, false)))
            && (job.id != m.data.id ==> (Live(r.shard, job) <==> Live(s.shard, job)))
  {
    assert Holds(s, c);
    var m := At(s, c).msg;
    ReschedulePutsNext(s.shard, m, NextJob(m.data, At(s, c).phase.blocks), job);
  }

  lemma DropJobTakesOne(s: System, c: G.Consumer, job: Job)
    requires OwnInv(s) && Enabled(s, DropJob(c))
    ensures Live(Do(s, DropJob(c)).shard, job) <==> Live(s.shard, job) && job.id != At(s, c).msg.data.id
  {
    assert Holds(s, c);
    DropTakesOne(s.shard, At(s, c).msg, job);
  }

  /** No other step moves a job. */
  lemma OthersMoveNothing(s: System, step: Step, job: Job)
    requires OwnInv(s) && Enabled(s, step)
    requires !step.GiveUp? && !step.Finish? && !step.DropJob? && !step.Activate?
    ensures Live(Do(s, step).shard, job) <==> Live(s.shard, job)
  {
    if step.FlushShard? {
      FlushKeepsJobs(s.shard, if s.router.next > 0 then s.router.next - 1 else 0, job);
    } else if step.ReadBacklog? || step.ReadNew? {
      ReadsKeepJobs(s, step);
    }
  }

  lemma ReadsKeepJobs(s: System, step: Step)
    requires Enabled(s, step) && (step.ReadBacklog? || step.ReadNew?)
    ensures Do(s, step).shard.pending == s.shard.pending && Do(s, step).shard.group.entries == s.shard.group.entries
  {
  }

  // ----- Requests of established jobs go upwards -----

  /** The blocks are in ascending order and lie between two heights. */
  ghost predicate Upwards(blocks: seq<Block>, from: nat, to: int) {
    Ascending(blocks) && forall b :: b in blocks ==> from <= b.height <= to
  }

  /** The height of the last block that a job may ask for. */
  function LastAsked(job: Job, row: Webhook): int {
    job.height + row.maxBlocks - 1
  }

  lemma U64AtMost(x: nat)
    ensures C.U64(x) <= x
  {
  }

  lemma CachedGoUp(store: C.Store, job: Job, row: Webhook)
    requires !job.isNew && row.maxBlocks >= 1
    ensures Upwards(CachedBlocks(store, job, row), job.height, LastAsked(job, row))
  {
    U64AtMost(LastAsked(job, row));
    RangeExact(store.cache, job.height, C.U64(LastAsked(job, row)));
  }

  lemma AnswerGoesUp(cached: seq<Block>, db: Table, job: Job, row: Webhook)
    requires !job.isNew && row.maxBlocks >= 1 && job.height >= 1
    requires Upwards(cached, job.height, LastAsked(job, row))
    ensures Upwards(BlocksToSend(cached, db, job, row), job.height, LastAsked(job, row))
  {
    var hi := C.U64(LastAsked(job, row));
    U64AtMost(LastAsked(job, row));
    if cached == [] {
      RangeExact(db, job.height, hi);
    } else {
      assert cached[0] in cached;
      var end := C.U64(cached[0].height - 1);
      U64AtMost(cached[0].height - 1);
      RangeExact(db, job.height, end);
      BothGoUp(Range(db, job.height, end), cached);
    }
  }

  lemma BothGoUp(a: seq<Block>, b: seq<Block>)
    requires Ascending(a) && Ascending(b) && b != [] && forall x :: x in a ==> x.height < b[0].height
    ensures Ascending(a + b)
    ensures forall x :: x in a + b <==> x in a || x in b
  {
    forall i, j | 0 <= i < j < |a + b| ensures (a + b)[i].height < (a + b)[j].height {
      if i < |a| <= j {
        assert a[i] in a;
      }
    }
  }

  /** Ascending heights between two bounds are no more than fit between them. */
  lemma {:induction false} UpwardsIsShort(blocks: seq<Block>, from: nat, to: int)
    requires Upwards(blocks, from, to) && from <= to + 1
    ensures |blocks| <= to - from + 1
    decreases |blocks|
  {
    if blocks != [] {
      var last := blocks[|blocks| - 1];
      var front := blocks[..|blocks| - 1];
      assert last in blocks;
      forall b | b in front ensures from <= b.height <= last.height - 1 {
        var i :| 0 <= i < |front| && front[i] == b;
        assert blocks[i] in blocks;
      }
      UpwardsIsShort(front, from, last.height - 1);
    }
  }

  // ----- The invariant -----

  predicate RowFits(row: Webhook) {
    1 <= row.maxBlocks <= MAX_INT32
  }

  /** What a handler has put together so far. */
  ghost predicate PhaseUp(job: Job, p: Phase) {
    match p
    case Reading(row) => RowFits(row)
    case Checking(row) => RowFits(row)
    case HalfRead(row, cached, _, _) =>
      RowFits(row) && if job.isNew then |cached| <= row.maxBlocks else Upwards(cached, job.height, LastAsked(job, row))
    case Sending(blocks) => !job.isNew ==> Upwards(blocks, job.height, TopOf(blocks))
    case Sent(blocks) => !job.isNew ==> Upwards(blocks, job.height, TopOf(blocks))
    case _ => true
  }

  function TopOf(blocks: seq<Block>): int {
    if blocks == [] then 0 else blocks[|blocks| - 1].height
  }

  ghost predicate LocalUp(s: System, c: G.Consumer) {
    At(s, c).Busy? ==> PhaseUp(At(s, c).msg.data, At(s, c).phase)
  }

  /** Established jobs have begun, and new ones have not. */
  ghost predicate JobBegun(s: System, job: Job) {
    Live(s.shard, job) ==> if job.isNew then job.id !in s.history.first else job.id in s.history.first && job.height >= 1
  }

  /** A webhook's job stands above what was given up for it, unless the webhook was dropped since. */
  ghost predicate JobAbove(s: System, job: Job) {
    Live(s.shard, job) && !job.isNew && job.id !in s.history.dropped ==>
      forall h :: (job.id, h) in s.history.skipped ==> h < job.height
  }

  ghost predicate Inv(s: System) {
    && (forall id :: id in s.rows ==> RowFits(s.rows[id]))
    && s.history.first.Keys <= s.shard.webhooks
    && (forall id, h :: (id, h) in s.history.skipped && id !in s.history.dropped ==> id in s.history.first)
    && (forall job :: JobBegun(s, job))
    && (forall job :: JobAbove(s, job))
    && (forall c :: LocalUp(s, c))
  }

  /** Steps that move no job and give up nothing. */
  lemma QuietKeeps(s: System, s': System, c: G.Consumer)
    requires Inv(s) && forall job :: Live(s'.shard, job) <==> Live(s.shard, job)
    requires s'.history.first == s.history.first && s'.history.skipped == s.history.skipped
    requires s'.history.dropped == s.history.dropped && s'.shard.webhooks == s.shard.webhooks
    requires forall id :: id in s'.rows ==> RowFits(s'.rows[id])
    requires (forall d :: d != c ==> At(s', d) == At(s, d)) && LocalUp(s', c)
    ensures Inv(s')
  {
    forall job ensures JobBegun(s', job) && JobAbove(s', job) {
      assert JobBegun(s, job) && JobAbove(s, job);
    }
    forall d ensures LocalUp(s', d) {
      assert LocalUp(s, d);
      assert d != c ==> At(s', d) == At(s, d);
    }
  }

  lemma OthersStayUp(s: System, s': System, c: G.Consumer)
    requires (forall d :: LocalUp(s, d)) && (forall d :: d != c ==> At(s', d) == At(s, d)) && !At(s', c).Busy?
    ensures forall d :: LocalUp(s', d)
  {
    forall d ensures LocalUp(s', d) {
      assert LocalUp(s, d);
      assert d != c ==> At(s', d) == At(s, d);
    }
  }

  lemma ReadDbGoesUp(s: System, c: G.Consumer)
    requires Inv(s) && OwnInv(s) && Enabled(s, ReadDb(c))
    ensures LocalUp(Do(s, ReadDb(c)), c)
    ensures !At(s, c).msg.data.isNew ==>
              Upwards(At(Do(s, ReadDb(c)), c).phase.blocks, At(s, c).msg.data.height,
                      LastAsked(At(s, c).msg.data, At(s, c).phase.row))
  {
    var job, p := At(s, c).msg.data, At(s, c).phase;
    assert Holds(s, c) && LocalUp(s, c) && JobBegun(s, job);
    if !job.isNew {
      AnswerGoesUp(p.cached, s.store.db, job, p.row);
      StaysBelowTop(BlocksToSend(p.cached, s.store.db, job, p.row), job.height, LastAsked(job, p.row));
    }
  }

  lemma StaysBelowTop(blocks: seq<Block>, from: nat, to: int)
    requires Upwards(blocks, from, to)
    ensures Upwards(blocks, from, TopOf(blocks))
  {
    forall b | b in blocks ensures b.height <= TopOf(blocks) {
      var i :| 0 <= i < |blocks| && blocks[i] == b;
    }
  }

  lemma HandlerStaysUp(s: System, step: Step)
    requires Inv(s) && OwnInv(s) && Enabled(s, step)
    requires step.LookUp? || step.CheckRetries? || step.ReadCache? || step.ReadDb? || step.Post?
    ensures LocalUp(Do(s, step), step.c)
  {
    var c := step.c;
    assert LocalUp(s, c);
    if step.ReadDb? {
      ReadDbGoesUp(s, c);
    } else if step.ReadCache? {
      if At(s, c).msg.data.isNew {
        LatestLength(s.store.cache, At(s, c).phase.row.maxBlocks);
      } else {
        CachedGoUp(s.store, At(s, c).msg.data, At(s, c).phase.row);
      }
    }
  }

  lemma GiveUpKeepsInv(s: System, c: G.Consumer)
    requires Inv(s) && OwnInv(s) && Enabled(s, GiveUp(c))
    ensures Inv(Do(s, GiveUp(c)))
  {
    var m, r := At(s, c).msg, Do(s, GiveUp(c));
    assert Holds(s, c) && JobBegun(s, m.data) && JobAbove(s, m.data);
    forall job ensures JobBegun(r, job) && JobAbove(r, job) {
      GiveUpMovesOn(s, c, job);
      assert JobBegun(s, job) && JobAbove(s, job);
    }
    OthersStayUp(s, r, c);
  }

  /** The established job that follows a request stands above the one before. */
  lemma FinishGoesUp(s: System, c: G.Consumer)
    requires Inv(s) && Enabled(s, Finish(c)) && !At(s, c).msg.data.isNew
    ensures var job, blocks := At(s, c).msg.data, At(s, c).phase.blocks;
            job.height <= blocks[|blocks| - 1].height && forall b :: b in blocks ==> b.height <= blocks[|blocks| - 1].height
  {
    assert LocalUp(s, c);
    var blocks := At(s, c).phase.blocks;
    assert blocks[|blocks| - 1] in blocks;
  }

  lemma FinishKeepsInv(s: System, c: G.Consumer)
    requires Inv(s) && OwnInv(s) && Enabled(s, Finish(c))
    ensures Inv(Do(s, Finish(c)))
  {
    var m, r := At(s, c).msg, Do(s, Finish(c));
    assert Holds(s, c) && JobBegun(s, m.data) && JobAbove(s, m.data);
    S.StreamJobIsAlone(s.shard, m);
    if !m.data.isNew {
      FinishGoesUp(s, c);
    }
    forall job ensures JobBegun(r, job) && JobAbove(r, job) {
      FinishMovesOn(s, c, job);
      assert JobBegun(s, job) && JobAbove(s, job);
    }
    OthersStayUp(s, r, c);
  }

  lemma DropKeepsInv(s: System, c: G.Consumer)
    requires Inv(s) && OwnInv(s) && Enabled(s, DropJob(c))
    ensures Inv(Do(s, DropJob(c)))
  {
    var r := Do(s, DropJob(c));
    forall job ensures JobBegun(r, job) && JobAbove(r, job) {
      DropJobTakesOne(s, c, job);
      assert JobBegun(s, job) && JobAbove(s, job);
    }
    OthersStayUp(s, r, c);
  }

  lemma ActivateKeepsInv(s: System, ids: seq<WebhookId>)
    requires Inv(s) && OwnInv(s)
    ensures Inv(Do(s, Activate(ids)))
  {
    var r := Do(s, Activate(ids));
    forall job ensures JobBegun(r, job) && JobAbove(r, job) {
      ActivateAddsFresh(s.shard, ids, job);
      assert JobBegun(s, job) && JobAbove(s, job);
    }
    forall d ensures LocalUp(r, d) {
      assert LocalUp(s, d);
      assert At(r, d) == At(s, d);
    }
  }

  predicate MovesJobs(step: Step) {
    step.GiveUp? || step.Finish? || step.DropJob? || step.Activate?
  }

  predicate OfHandler(step: Step) {
    step.LookUp? || step.CheckRetries? || step.ReadCache? || step.ReadDb? || step.Post?
  }

  lemma JobsUnmoved(s: System, step: Step)
    requires OwnInv(s) && Enabled(s, step) && !MovesJobs(step)
    ensures forall job :: Live(Do(s, step).shard, job) <==> Live(s.shard, job)
  {
    forall job ensures Live(Do(s, step).shard, job) <==> Live(s.shard, job) {
      OthersMoveNothing(s, step, job);
    }
  }

  lemma QuietStepKeeps(s: System, step: Step)
    requires Inv(s) && OwnInv(s) && Enabled(s, step) && !MovesJobs(step) && !OfHandler(step)
    ensures Inv(Do(s, step))
  {
    JobsUnmoved(s, step);
    var c := if step.ReadBacklog? || step.ReadNew? || step.HandlerFails? || step.ConsumerCrashes? then step.c else 0;
    assert LocalUp(s, c);
    QuietKeeps(s, Do(s, step), c);
  }

  /** A handler at work changes its own place, and what was POSTed. */
  ghost predicate TouchesLittle(s: System, r: System) {
    && r.shard == s.shard && r.rows == s.rows && r.history.first == s.history.first
    && r.history.skipped == s.history.skipped && r.history.dropped == s.history.dropped
  }

  lemma PostTouches(s: System, c: G.Consumer, delivered: bool)
    requires Enabled(s, Post(c, delivered))
    ensures TouchesLittle(s, Do(s, Post(c, delivered)))
  {
  }

  lemma PhaseTouches(s: System, c: G.Consumer, p: Phase)
    requires At(s, c).Busy?
    ensures TouchesLittle(s, SetPhase(s, c, p))
  {
  }

  lemma HandlerTouches(s: System, step: Step)
    requires Enabled(s, step) && OfHandler(step)
    ensures TouchesLittle(s, Do(s, step))
  {
    if step.Post? {
      PostTouches(s, step.c, step.delivered);
    } else {
      PhaseTouches(s, step.c, At(Do(s, step), step.c).phase);
    }
  }

  lemma HandlerLeavesOthers(s: System, step: Step)
    requires Enabled(s, step) && OfHandler(step)
    ensures forall d :: d != step.c ==> At(Do(s, step), d) == At(s, d)
  {
  }

  lemma HandlerStepKeeps(s: System, step: Step)
    requires Inv(s) && OwnInv(s) && Enabled(s, step) && OfHandler(step)
    ensures Inv(Do(s, step))
  {
    JobsUnmoved(s, step);
    HandlerStaysUp(s, step);
    HandlerTouches(s, step);
    HandlerLeavesOthers(s, step);
    QuietKeeps(s, Do(s, step), step.c);
  }

  lemma StepKeeps(s: System, step: Step)
    requires Inv(s) && OwnInv(s) && Enabled(s, step)
    ensures Inv(Do(s, step))
  {
    if step.GiveUp? {
      GiveUpKeepsInv(s, step.c);
    } else if step.Finish? {
      FinishKeepsInv(s, step.c);
    } else if step.DropJob? {
      DropKeepsInv(s, step.c);
    } else if step.Activate? {
      ActivateKeepsInv(s, step.ids);
    } else if OfHandler(step) {
      HandlerStepKeeps(s, step);
    } else {
      QuietStepKeeps(s, step);
    }
  }

  // ----- Every run -----

  lemma {:induction false} RunKeeps(s: System, steps: seq<Step>)
    requires Inv(s) && OwnInv(s) && IsRun(s, steps)
    ensures Inv(After(s, steps)) && OwnInv(After(s, steps))
    decreases |steps|
  {
    if steps != [] {
      StepKeeps(s, steps[0]);
      StepKeepsOwnInv(s, steps[0]);
      RunKeeps(Do(s, steps[0]), steps[1..]);
    }
  }

  lemma Reachable(base: nat, steps: seq<Step>)
    requires IsRun(Init(base), steps)
    ensures Inv(After(Init(base), steps)) && OwnInv(After(Init(base), steps))
  {
    InitOwnInv(base);
    RunKeeps(Init(base), steps);
  }

  /**
   Over every run: a height that was given up lies behind the webhook, unless the webhook was dropped since. So the
   retry limit takes effect, and the webhook gets past the block.
   */
  lemma GivenUpIsBehind(base: nat, steps: seq<Step>, job: Job, h: nat)
    requires IsRun(Init(base), steps)
    requires var s := After(Init(base), steps);
             && Live(s.shard, job) && !job.isNew
             && (job.id, h) in s.history.skipped && job.id !in s.history.dropped
    ensures h < job.height
  {
    Reachable(base, steps);
    assert JobAbove(After(Init(base), steps), job);
  }

  /** After any run: an acknowledged request of an established job leaves the one job of its webhook above all it sent. */
  lemma AcknowledgedIsBehind(base: nat, steps: seq<Step>, c: G.Consumer, job: Job)
    requires IsRun(Init(base), steps)
    requires var s := After(Init(base), steps);
             && Enabled(s, Finish(c)) && !At(s, c).msg.data.isNew
             && Live(Do(s, Finish(c)).shard, job) && job.id == At(s, c).msg.data.id
    ensures var s := After(Init(base), steps);
            && !job.isNew && At(s, c).msg.data.height < job.height
            && forall b :: b in At(s, c).phase.blocks ==> At(s, c).msg.data.height <= b.height < job.height
  {
    Reachable(base, steps);
    var s := After(Init(base), steps);
    FinishMovesOn(s, c, job);
    FinishGoesUp(s, c);
    assert LocalUp(s, c);
  }

  /** After any run: no step moves an established job back, and none makes it new again. */
  lemma JobsNeverGoBack(base: nat, steps: seq<Step>, step: Step, job: Job, next: Job)
    requires IsRun(Init(base), steps)
    requires var s := After(Init(base), steps);
             && Enabled(s, step) && Live(s.shard, job) && !job.isNew
             && Live(Do(s, step).shard, next) && next.id == job.id
    ensures !next.isNew && job.height <= next.height
    ensures var s := After(Init(base), steps);
            (step.GiveUp? || step.Finish?) && At(s, step.c).msg.data.id == job.id ==> job.height < next.height
  {
    Reachable(base, steps);
    NeverBack(After(Init(base), steps), step, job, next);
  }

  lemma {:induction false} TwoAreCounted(p: seq<Entry>, a: Entry, b: Entry)
    requires a in p && b in p && a != b && a.job.id == b.job.id
    ensures Count(p, a.job.id) >= 2
  {
    assert forall e :: e in p <==> e == p[0] || e in p[1..];
    if a in p[1..] && b in p[1..] {
      TwoAreCounted(p[1..], a, b);
    } else {
      CountMembers(p[1..], a.job.id);
    }
  }

  /** A webhook has one job. */
  lemma OneJobEach(s: S.Shard, a: Job, b: Job)
    requires S.Valid(s) && Live(s, a) && Live(s, b) && a.id == b.id
    ensures a == b && a.id in s.webhooks
  {
    if m :| m in s.group.entries && m.data == a {
      S.StreamJobIsAlone(s, m);
    } else if m :| m in s.group.entries && m.data == b {
      S.StreamJobIsAlone(s, m);
    } else {
      var d :| d in s.pending && d.job == a;
      var e :| e in s.pending && e.job == b;
      assert S.LiveJobs(s, a.id) == if a.id in s.webhooks then 1 else 0;
      CountMembers(s.pending, a.id);
      if d != e {
        TwoAreCounted(s.pending, d, e);
      }
    }
  }

  lemma NeverBack(s: System, step: Step, job: Job, next: Job)
    requires Inv(s) && OwnInv(s) && Enabled(s, step) && Live(s.shard, job) && !job.isNew
    requires Live(Do(s, step).shard, next) && next.id == job.id
    ensures !next.isNew && job.height <= next.height
    ensures (step.GiveUp? || step.Finish?) && At(s, step.c).msg.data.id == job.id ==> job.height < next.height
  {
    OneJobEach(s.shard, job, job);
    if step.GiveUp? {
      GiveUpMovesOn(s, step.c, next);
      OneJobBefore(s, job, if At(s, step.c).msg.data.id == job.id then At(s, step.c).msg.data else next);
    } else if step.Finish? {
      FinishMovesOn(s, step.c, next);
      OneJobBefore(s, job, if At(s, step.c).msg.data.id == job.id then At(s, step.c).msg.data else next);
      if At(s, step.c).msg.data.id == job.id {
        FinishGoesUp(s, step.c);
      }
    } else {
      UnmovedStays(s, step, next);
      OneJobBefore(s, job, next);
    }
  }

  lemma OneJobBefore(s: System, job: Job, other: Job)
    requires OwnInv(s) && Live(s.shard, job) && Live(s.shard, other) && job.id == other.id
    ensures job == other
  {
    OneJobEach(s.shard, job, other);
  }

  lemma UnmovedStays(s: System, step: Step, next: Job)
    requires OwnInv(s) && Enabled(s, step) && !step.GiveUp? && !step.Finish?
    requires Live(Do(s, step).shard, next) && next.id in s.shard.webhooks
    ensures Live(s.shard, next)
  {
    if step.DropJob? {
      DropJobTakesOne(s, step.c, next);
    } else if step.Activate? {
      ActivateAddsFresh(s.shard, step.ids, next);
    } else {
      OthersMoveNothing(s, step, next);
    }
  }

  /** The arithmetic of the latest blocks asks for no more than are missing, wrapped around or not. */
  lemma LatestIsShort(cached: seq<Block>, db: Table, limit: nat)
    requires |cached| <= limit && limit <= MAX_INT32
    ensures |L.FinishLatestBlocks(cached, db, limit)| <= limit
  {
    if cached == [] {
      LatestLength(db, limit);
    } else if |cached| < limit {
      var more := limit - |cached|;
      var end := C.U64(cached[|cached| - 1].height - 1);
      var start := C.U64(end - C.U64(more) + 1);
      assert C.U64(more) == more;
      MissingOnly(end, more);
      RangeLength(db, start, end);
      SortKeepsLength(cached + Range(db, start, end));
    }
  }

  lemma MissingOnly(end: nat, more: nat)
    requires end < C.TWO_TO_THE_64 && 0 < more <= MAX_INT32
    ensures C.U64(end - more + 1) > end || end - C.U64(end - more + 1) + 1 <= more
  {
    if end + 1 < more {
      assert (end - more + 1) % C.TWO_TO_THE_64 == end - more + 1 + C.TWO_TO_THE_64;
    }
  }

  lemma {:induction false} SortKeepsLength(bs: seq<Block>)
    ensures |SortDescending(bs)| == |bs|
  {
    if bs != [] {
      SortKeepsLength(bs[1..]);
      InsertAddsOne(SortDescending(bs[1..]), bs[0]);
    }
  }

  lemma {:induction false} InsertAddsOne(bs: seq<Block>, b: Block)
    ensures |InsertDescending(bs, b)| == |bs| + 1
  {
    if bs != [] {
      InsertAddsOne(bs[1..], b);
    }
  }

  /** After any run: a request has at most MaxBlocks blocks. */
  lemma RequestIsShort(base: nat, steps: seq<Step>, c: G.Consumer)
    requires IsRun(Init(base), steps) && Enabled(After(Init(base), steps), ReadDb(c))
    ensures var s := After(Init(base), steps);
            |At(Do(s, ReadDb(c)), c).phase.blocks| <= At(s, c).phase.row.maxBlocks
  {
    Reachable(base, steps);
    var s := After(Init(base), steps);
    assert LocalUp(s, c);
    if At(s, c).msg.data.isNew {
      LatestIsShort(At(s, c).phase.cached, s.store.db, At(s, c).phase.row.maxBlocks);
    } else {
      RequestFits(base, steps, c);
    }
  }

  /** After any run: a request for an established job has at most MaxBlocks blocks, in ascending order from the job's height on. */
  lemma RequestFits(base: nat, steps: seq<Step>, c: G.Consumer)
    requires IsRun(Init(base), steps)
    requires var s := After(Init(base), steps); Enabled(s, ReadDb(c)) && !At(s, c).msg.data.isNew
    ensures var s := After(Init(base), steps);
            var blocks := At(Do(s, ReadDb(c)), c).phase.blocks;
            && |blocks| <= At(s, c).phase.row.maxBlocks && Ascending(blocks)
            && forall b :: b in blocks ==>
                 At(s, c).msg.data.height <= b.height < At(s, c).msg.data.height + At(s, c).phase.row.maxBlocks
  {
    Reachable(base, steps);
    var s := After(Init(base), steps);
    ReadDbGoesUp(s, c);
    assert LocalUp(s, c);
    var job, row := At(s, c).msg.data, At(s, c).phase.row;
    UpwardsIsShort(At(Do(s, ReadDb(c)), c).phase.blocks, job.height, LastAsked(job, row));
  }

  // ----- Webhooks with a row -----

  /** The webhook has its row and its place in the set, and no handler believes that the row is gone. */
  ghost predicate Kept(s: System, id: WebhookId) {
    && id in s.rows && id in s.shard.webhooks
    && forall c :: At(s, c).Busy? && At(s, c).phase.Missing? ==> At(s, c).msg.data.id != id
  }

  lemma KeptAfter(s: System, s': System, c: G.Consumer, id: WebhookId)
    requires Kept(s, id) && id in s'.rows && id in s'.shard.webhooks
    requires forall d :: d != c ==> At(s', d) == At(s, d)
    requires At(s', c).Busy? && At(s', c).phase.Missing? ==> At(s', c).msg.data.id != id
    ensures Kept(s', id)
  {
    forall d ensures At(s', d).Busy? && At(s', d).phase.Missing? ==> At(s', d).msg.data.id != id {
      assert d != c ==> At(s', d) == At(s, d);
    }
  }

  lemma RowKept(s: System, step: Step, id: WebhookId)
    requires Enabled(s, step) && step != DeleteRow(id) && id in s.rows && id in s.shard.webhooks
    requires step.DropJob? ==> At(s, step.c).msg.data.id != id
    ensures id in Do(s, step).rows && id in Do(s, step).shard.webhooks
    ensures id in Do(s, step).history.dropped ==> id in s.history.dropped
  {
  }

  predicate OfConsumer(step: Step) {
    step.ReadBacklog? || step.ReadNew? || step.HandlerFails? || step.ConsumerCrashes? || step.DropJob? || step.GiveUp?
    || step.Finish? || OfHandler(step)
  }

  lemma ConsumerBelieves(s: System, step: Step, id: WebhookId)
    requires Kept(s, id) && Enabled(s, step) && OfConsumer(step)
    ensures forall d :: d != step.c ==> At(Do(s, step), d) == At(s, d)
    ensures At(Do(s, step), step.c).Busy? && At(Do(s, step), step.c).phase.Missing? ==>
              At(Do(s, step), step.c).msg.data.id != id
  {
  }

  lemma WorldKeepsLocals(s: System, step: Step)
    requires Enabled(s, step) && !OfConsumer(step)
    ensures Do(s, step).locals == s.locals
  {
  }

  lemma StepKeepsRow(s: System, step: Step, id: WebhookId)
    requires Kept(s, id) && Enabled(s, step) && step != DeleteRow(id)
    ensures Kept(Do(s, step), id) && (id in Do(s, step).history.dropped ==> id in s.history.dropped)
  {
    if step.DropJob? {
      assert At(s, step.c).phase.Missing?;
    }
    RowKept(s, step, id);
    if OfConsumer(step) {
      ConsumerBelieves(s, step, id);
      KeptAfter(s, Do(s, step), step.c, id);
    } else {
      WorldKeepsLocals(s, step);
      assert At(Do(s, step), 0) == At(s, 0);
      KeptAfter(s, Do(s, step), 0, id);
    }
  }

  /** As long as a webhook's row is not deleted, the relays never drop it, whatever else happens. */
  lemma {:induction false} RowKeepsWebhook(s: System, steps: seq<Step>, id: WebhookId)
    requires Kept(s, id) && IsRun(s, steps) && DeleteRow(id) !in steps
    ensures Kept(After(s, steps), id) && (id in After(s, steps).history.dropped ==> id in s.history.dropped)
    decreases |steps|
  {
    if steps != [] {
      assert forall step :: step in steps[1..] ==> step in steps;
      StepKeepsRow(s, steps[0], id);
      RowKeepsWebhook(Do(s, steps[0]), steps[1..], id);
    }
  }
}
