/**
 One shard of the webhook scheduler as Redis holds it, and what each atomic Lua script does to it:
 the activate script, the Flush script and the two forms of XAckDel.
 */
module WebhookShard {
  import opened Wrappers
  import opened PendingSet
  import G = RedisGroup

  datatype Shard = Shard(
    latest: Option<nat>,
    pending: seq<Entry>,
    group: G.Group<Job>,
    webhooks: set<WebhookId>)

  function EmptyShard(): Shard {
    Shard(None, [], G.Empty(), {})
  }

  // ----- The scripts -----

  function FreshJob(id: WebhookId): Job {
    Job(id, 0, true)
  }

  /** The jobs that the activate script builds: one for each argument that is not in the webhook set yet. */
  function FreshJobs(webhooks: set<WebhookId>, ids: seq<WebhookId>): seq<Job> {
    if ids == [] then []
    else (if ids[0] in webhooks then [] else [FreshJob(ids[0])]) + FreshJobs(webhooks, ids[1..])
  }

  /** ZADD with several members, all with score 0. */
  function ZAddAll(p: seq<Entry>, jobs: seq<Job>): seq<Entry>
    decreases |jobs|
  {
    if jobs == [] then p else ZAddAll(ZAdd(p, 0, jobs[0]), jobs[1..])
  }

  function SetOf(ids: seq<WebhookId>): set<WebhookId> {
    set id | id in ids
  }

  function Activate(s: Shard, ids: seq<WebhookId>): Shard {
    s.(webhooks := s.webhooks + SetOf(ids), pending := ZAddAll(s.pending, FreshJobs(s.webhooks, ids)))
  }

  /** The script reports an error when a Redis command in it gets no arguments; it is not rolled back then. */
  predicate ActivateReportsSuccess(s: Shard, ids: seq<WebhookId>) {
    FreshJobs(s.webhooks, ids) != []
  }

  /** The number of leading entries whose score is below a height. */
  function CountBelow(p: seq<Entry>, height: nat): (k: nat)
    ensures k <= |p|
  {
    if p == [] || p[0].score >= height then 0 else 1 + CountBelow(p[1..], height)
  }

  function Members(p: seq<Entry>): (jobs: seq<Job>)
    ensures |jobs| == |p| && forall i :: 0 <= i < |p| ==> jobs[i] == p[i].job
  {
    seq(|p|, i requires 0 <= i < |p| => p[i].job)
  }

  function Flush(s: Shard, height: nat): Shard {
    var k := CountBelow(s.pending, height);
    s.(latest := Some(height),
       pending := s.pending[k..],
       group := G.XAddAll(s.group, Members(s.pending[..k])))
  }

  /** XAckDel without a new message: the webhook is gone. */
  function Drop(s: Shard, msgId: nat, id: WebhookId): Shard {
    s.(group := G.AckDel(s.group, {msgId}), webhooks := s.webhooks - {id})
  }

  /** XAckDel with a new message: the job goes on at another height. */
  function Reschedule(s: Shard, msgId: nat, job: Job): Shard {
    var acked := s.(group := G.AckDel(s.group, {msgId}));
    if s.latest.None? || job.height >= s.latest.value
    then acked.(pending := ZAdd(s.pending, job.height, job))
    else acked.(group := G.XAdd(acked.group, job))
  }

  // ----- One live job per webhook -----

  ghost function StreamCount(s: seq<G.Msg<Job>>, id: WebhookId): nat {
    if s == [] then 0 else (if s[0].data.id == id then 1 else 0) + StreamCount(s[1..], id)
  }

  /** How many jobs a webhook has, waiting or in the stream. */
  ghost function LiveJobs(s: Shard, id: WebhookId): nat {
    Count(s.pending, id) + StreamCount(s.group.entries, id)
  }

  ghost predicate OneLiveJobEach(s: Shard) {
    forall id :: LiveJobs(s, id) == if id in s.webhooks then 1 else 0
  }

  /** The pending set and the stream are well formed, and exactly the ids of the webhook set have a job, one each. */
  ghost predicate Valid(s: Shard) {
    && Sorted(s.pending)
    && ScoresMatch(s.pending)
    && G.Valid(s.group)
    && OneLiveJobEach(s)
  }

  lemma {:induction false} StreamCountConcat(a: seq<G.Msg<Job>>, b: seq<G.Msg<Job>>, id: WebhookId)
    ensures StreamCount(a + b, id) == StreamCount(a, id) + StreamCount(b, id)
  {
    if a == [] {
      assert a + b == b;
    } else {
      StreamCountConcat(a[1..], b, id);
      assert (a + b)[1..] == a[1..] + b;
    }
  }

  lemma {:induction false} StreamCountMembers(s: seq<G.Msg<Job>>, id: WebhookId)
    ensures StreamCount(s, id) > 0 <==> exists m :: m in s && m.data.id == id
  {
    if s != [] {
      StreamCountMembers(s[1..], id);
      assert forall x :: x in s <==> x == s[0] || x in s[1..];
    }
  }

  lemma {:induction false} StreamCountWithout(s: seq<G.Msg<Job>>, m: G.Msg<Job>, id: WebhookId)
    requires G.Increasing(s) && m in s
    ensures StreamCount(s, id) == StreamCount(G.Without(s, {m.id}), id) + if m.data.id == id then 1 else 0
  {
    G.HeadIsLeast(s);
    if s[0] == m {
      G.WithoutNothing(s[1..], {m.id});
      assert G.Without(s, {m.id}) == s[1..];
    } else {
      assert m in s[1..];
      StreamCountWithout(s[1..], m, id);
      var t := G.Without(s[1..], {m.id});
      assert G.Without(s, {m.id}) == [s[0]] + t;
      assert ([s[0]] + t)[1..] == t;
    }
  }

  lemma XAddCount(g: G.Group<Job>, job: Job, id: WebhookId)
    ensures StreamCount(G.XAdd(g, job).entries, id) == StreamCount(g.entries, id) + if job.id == id then 1 else 0
  {
    StreamCountConcat(g.entries, [G.Msg(g.nextId, job)], id);
  }

  lemma {:induction false} XAddAllCount(g: G.Group<Job>, p: seq<Entry>, id: WebhookId)
    ensures StreamCount(G.XAddAll(g, Members(p)).entries, id) == StreamCount(g.entries, id) + Count(p, id)
    decreases |p|
  {
    if p != [] {
      XAddCount(g, p[0].job, id);
      assert Members(p)[1..] == Members(p[1..]);
      XAddAllCount(G.XAdd(g, p[0].job), p[1..], id);
    }
  }

  // ----- Flush -----

  lemma {:induction false} CountBelowExact(p: seq<Entry>, height: nat)
    requires Sorted(p)
    ensures forall i :: 0 <= i < |p| ==> (i < CountBelow(p, height) <==> p[i].score < height)
  {
    if p != [] {
      SortedTail(p);
      if p[0].score < height {
        CountBelowExact(p[1..], height);
        forall i | 0 <= i < |p| ensures i < CountBelow(p, height) <==> p[i].score < height {
          if i > 0 {
            assert p[i] == p[1..][i - 1];
          }
        }
      }
    }
  }

  /**
   Flush appends exactly the pending jobs below the height to the stream, in ascending order and behind
   everything that is there, keeps exactly the others pending, and touches no delivered message.
   */
  lemma FlushExact(s: Shard, height: nat)
    requires Valid(s)
    ensures var r := Flush(s, height);
            && r.latest == Some(height)
            && r.webhooks == s.webhooks && r.group.pel == s.group.pel && r.group.lastDelivered == s.group.lastDelivered
            && (forall e :: e in r.pending <==> e in s.pending && e.score >= height)
            && |r.group.entries| == |s.group.entries| + (|s.pending| - |r.pending|)
            && s.group.entries <= r.group.entries
            && (forall i :: 0 <= i < |s.pending| - |r.pending| ==>
                  && s.pending[i].score < height
                  && r.group.entries[|s.group.entries| + i] == G.Msg(s.group.nextId + i, s.pending[i].job))
  {
    var k := CountBelow(s.pending, height);
    CountBelowExact(s.pending, height);
    G.XAddAllAppends(s.group, Members(s.pending[..k]));
    var r := Flush(s, height);
    assert forall i :: 0 <= i < |r.pending| ==> r.pending[i] == s.pending[k + i];
    forall e ensures e in r.pending <==> e in s.pending && e.score >= height {
      if e in s.pending && e.score >= height {
        var i :| 0 <= i < |s.pending| && s.pending[i] == e;
        assert r.pending[i - k] == e;
      }
    }
  }

  /** A message in the stream after a flush was there before, or its job waited below the height. */
  lemma FlushSources(s: Shard, height: nat, m: G.Msg<Job>)
    requires Valid(s) && m in Flush(s, height).group.entries
    ensures m in s.group.entries || (Entry(m.data.height, m.data) in s.pending && m.data.height < height)
  {
    FlushExact(s, height);
    var r := Flush(s, height);
    var i :| 0 <= i < |r.group.entries| && r.group.entries[i] == m;
    if i < |s.group.entries| {
      assert m == s.group.entries[i];
    } else {
      var e := s.pending[i - |s.group.entries|];
      assert e in s.pending;
      assert m == G.Msg(s.group.nextId + (i - |s.group.entries|), e.job);
    }
  }

  lemma FlushValid(s: Shard, height: nat)
    requires Valid(s)
    ensures Valid(Flush(s, height))
  {
    var k := CountBelow(s.pending, height);
    var r := Flush(s, height);
    G.XAddAllValid(s.group, Members(s.pending[..k]));
    forall id ensures LiveJobs(r, id) == LiveJobs(s, id) {
      FlushKeepsLive(s, height, id);
    }
    assert forall i :: 0 <= i < |r.pending| ==> r.pending[i] == s.pending[k + i];
    assert forall e :: e in r.pending ==> e in s.pending;
  }

  /** A flush moves jobs, it neither loses nor copies one. */
  lemma FlushKeepsLive(s: Shard, height: nat, id: WebhookId)
    ensures LiveJobs(Flush(s, height), id) == LiveJobs(s, id)
  {
    var k := CountBelow(s.pending, height);
    var moved, kept := s.pending[..k], s.pending[k..];
    XAddAllCount(s.group, moved, id);
    CountConcat(moved, kept, id);
    assert s.pending == moved + kept;
  }

  lemma {:induction false} CountBelowTwice(p: seq<Entry>, h1: nat, h2: nat)
    requires h1 <= h2
    ensures CountBelow(p, h2) == CountBelow(p, h1) + CountBelow(p[CountBelow(p, h1)..], h2)
  {
    if p != [] && p[0].score < h1 {
      CountBelowTwice(p[1..], h1, h2);
      var k := CountBelow(p, h1);
      assert p[1..][k - 1..] == p[k..];
    } else {
      assert p[0..] == p;
    }
  }

  /** A flush swallows every earlier flush at a height that is not larger; in particular it is idempotent. */
  lemma FlushAbsorbs(s: Shard, h1: nat, h2: nat)
    requires h1 <= h2
    ensures Flush(Flush(s, h1), h2) == Flush(s, h2)
  {
    var p := s.pending;
    var k1, k2 := CountBelow(p, h1), CountBelow(p, h2);
    CountBelowTwice(p, h1, h2);
    var rest := p[k1..];
    var k := CountBelow(rest, h2);
    assert rest[k..] == p[k2..];
    assert Members(p[..k2]) == Members(p[..k1]) + Members(rest[..k]);
    G.XAddAllConcat(s.group, Members(p[..k1]), Members(rest[..k]));
  }

  /** Flushing at each height of a list in turn. */
  ghost function FlushEach(s: Shard, heights: seq<nat>): Shard
    decreases |heights|
  {
    if heights == [] then s else FlushEach(Flush(s, heights[0]), heights[1..])
  }

  /** Flushing once at the largest height of an ascending list does what flushing at each height in turn does. */
  lemma {:induction false} FlushOnceForBatch(s: Shard, heights: seq<nat>)
    requires heights != []
    requires forall i, j :: 0 <= i < j < |heights| ==> heights[i] <= heights[j]
    ensures FlushEach(s, heights) == Flush(s, heights[|heights| - 1])
    decreases |heights|
  {
    if |heights| > 1 {
      var rest := heights[1..];
      FlushOnceForBatch(Flush(s, heights[0]), rest);
      FlushAbsorbs(s, heights[0], rest[|rest| - 1]);
    }
  }

  // ----- Activation -----

  lemma {:induction false} ZAddAgain(p: seq<Entry>, e: Entry)
    requires Sorted(p) && ScoresMatch(p) && e in p
    ensures ZAdd(p, e.score, e.job) == p
  {
    SortedTail(p);
    assert forall x :: x in p <==> x == p[0] || x in p[1..];
    assert p == [p[0]] + p[1..];
    if p[0] == e {
      assert e.job !in JobsOf(p[1..]);
      EraseExact(p[1..], e.job);
      assert Erase(p, e.job) == p[1..];
      if |p| > 1 {
        assert p[1] == p[1..][0];
        assert Before(e, p[1..][0]);
      }
    } else {
      ZAddAgain(p[1..], e);
      assert p[0].job != e.job;
      var t := Erase(p[1..], e.job);
      assert Erase(p, e.job) == [p[0]] + t;
      assert ([p[0]] + t)[1..] == t;
      assert Before(p[0], e);
    }
  }

  /** Adding one fresh job either changes nothing or adds exactly that job. */
  lemma ZAddFresh(p: seq<Entry>, j: Job)
    requires Sorted(p) && ScoresMatch(p) && j == FreshJob(j.id)
    ensures var r := ZAdd(p, 0, j);
            && Sorted(r) && ScoresMatch(r)
            && (forall e :: e in r <==> e in p || e == Entry(0, j))
            && (j in JobsOf(p) ==> r == p)
  {
    ZAddExact(p, 0, j);
    assert forall e :: e in p && e.job == j ==> e == Entry(0, j);
    if j in JobsOf(p) {
      ZAddAgain(p, Entry(0, j));
    }
  }

  lemma {:induction false} ZAddAllMembers(p: seq<Entry>, jobs: seq<Job>)
    requires Sorted(p) && ScoresMatch(p)
    requires forall j :: j in jobs ==> j == FreshJob(j.id)
    ensures var r := ZAddAll(p, jobs);
            && Sorted(r) && ScoresMatch(r)
            && (forall e :: e in r <==> e in p || (e.score == 0 && e.job in jobs))
    decreases |jobs|
  {
    if jobs != [] {
      assert forall x :: x in jobs <==> x == jobs[0] || x in jobs[1..];
      ZAddFresh(p, jobs[0]);
      ZAddAllMembers(ZAdd(p, 0, jobs[0]), jobs[1..]);
    }
  }

  lemma {:induction false} ZAddAllCount(p: seq<Entry>, jobs: seq<Job>, id: WebhookId)
    requires Sorted(p) && ScoresMatch(p)
    requires forall j :: j in jobs ==> j == FreshJob(j.id)
    ensures Count(ZAddAll(p, jobs), id)
            == Count(p, id) + if FreshJob(id) in jobs && FreshJob(id) !in JobsOf(p) then 1 else 0
    decreases |jobs|
  {
    if jobs != [] {
      var j := jobs[0];
      var p' := ZAdd(p, 0, j);
      assert j in jobs;
      ZAddFresh(p, j);
      ZAddAllCount(p', jobs[1..], id);
      assert Entry(0, j) in p';
      if j !in JobsOf(p) {
        ZAddCount(p, 0, j, id);
        assert FreshJob(id) in JobsOf(p') <==> FreshJob(id) in JobsOf(p) || FreshJob(id) == j by {
          if FreshJob(id) in JobsOf(p) {
            var e :| e in p && e.job == FreshJob(id);
            assert e in p';
          }
        }
      }
    }
  }

  lemma {:induction false} FreshJobsExact(webhooks: set<WebhookId>, ids: seq<WebhookId>)
    ensures forall j :: j in FreshJobs(webhooks, ids) <==> j == FreshJob(j.id) && j.id in ids && j.id !in webhooks
    ensures FreshJobs(webhooks, ids) == [] <==> forall id :: id in ids ==> id in webhooks
  {
    if ids != [] {
      FreshJobsExact(webhooks, ids[1..]);
      assert forall id :: id in ids <==> id == ids[0] || id in ids[1..];
    }
  }

  /** The script reports an error exactly when every given webhook is active, and it changes nothing then. */
  lemma ActivateErrs(s: Shard, ids: seq<WebhookId>)
    ensures ActivateReportsSuccess(s, ids) <==> exists id :: id in ids && id !in s.webhooks
    ensures !ActivateReportsSuccess(s, ids) ==> Activate(s, ids) == s
    ensures !ActivateReportsSuccess(Activate(s, ids), ids)
  {
    FreshJobsExact(s.webhooks, ids);
    FreshJobsExact(s.webhooks + SetOf(ids), ids);
    if !ActivateReportsSuccess(s, ids) {
      assert s.webhooks + SetOf(ids) == s.webhooks;
    }
  }

  /** Activation gives a job at height 0 to exactly the given webhooks that have none, and is idempotent. */
  lemma ActivateExact(s: Shard, ids: seq<WebhookId>)
    requires Valid(s)
    ensures Valid(Activate(s, ids))
    ensures var r := Activate(s, ids);
            && r.webhooks == s.webhooks + SetOf(ids) && r.group == s.group && r.latest == s.latest
            && (forall e :: e in r.pending <==>
                  e in s.pending || (e == Entry(0, FreshJob(e.job.id)) && e.job.id in ids && e.job.id !in s.webhooks))
  {
    var jobs := FreshJobs(s.webhooks, ids);
    FreshJobsExact(s.webhooks, ids);
    ZAddAllMembers(s.pending, jobs);
    forall id ensures LiveJobs(Activate(s, ids), id) == if id in s.webhooks + SetOf(ids) then 1 else 0 {
      ZAddAllCount(s.pending, jobs, id);
      if id !in s.webhooks {
        NoJobOutsideTheSet(s, id);
      }
    }
  }

  lemma NoJobOutsideTheSet(s: Shard, id: WebhookId)
    requires Valid(s) && id !in s.webhooks
    ensures forall e :: e in s.pending ==> e.job.id != id
    ensures forall m :: m in s.group.entries ==> m.data.id != id
  {
    assert LiveJobs(s, id) == 0;
    CountMembers(s.pending, id);
    StreamCountMembers(s.group.entries, id);
  }

  // ----- XAckDel -----

  /** While a webhook's job is in the stream, it has no job in the pending set and no other one in the stream. */
  lemma StreamJobIsAlone(s: Shard, m: G.Msg<Job>)
    requires Valid(s) && m in s.group.entries
    ensures m.data.id in s.webhooks
    ensures forall e :: e in s.pending ==> e.job.id != m.data.id
    ensures forall x :: x in s.group.entries && x.id != m.id ==> x.data.id != m.data.id
  {
    var id := m.data.id;
    var rest := G.Without(s.group.entries, {m.id});
    assert LiveJobs(s, id) <= 1;
    StreamCountWithout(s.group.entries, m, id);
    G.WithoutMembers(s.group.entries, {m.id});
    StreamCountMembers(rest, id);
    CountMembers(s.pending, id);
    assert forall x :: x in s.group.entries && x.id != m.id ==> x in rest;
  }

  lemma DropExact(s: Shard, m: G.Msg<Job>)
    requires Valid(s) && m in s.group.entries
    ensures var r := Drop(s, m.id, m.data.id);
            && Valid(r)
            && r.webhooks == s.webhooks - {m.data.id}
            && r.pending == s.pending && r.latest == s.latest
            && (forall x :: x in r.group.entries <==> x in s.group.entries && x.id != m.id)
            && r.group.pel == s.group.pel - {m.id}
            && r.group.lastDelivered == s.group.lastDelivered
  {
    G.AckDelValid(s.group, {m.id});
    var r := Drop(s, m.id, m.data.id);
    forall id ensures LiveJobs(r, id) == if id in r.webhooks then 1 else 0 {
      assert LiveJobs(s, id) == if id in s.webhooks then 1 else 0;
      StreamCountWithout(s.group.entries, m, id);
    }
  }

  /** A rescheduled job waits when its next height is not below the latest one, and runs again otherwise. */
  lemma RescheduleExact(s: Shard, m: G.Msg<Job>, job: Job)
    requires Valid(s) && m in s.group.entries && job.id == m.data.id
    ensures var r := Reschedule(s, m.id, job);
            var waits := s.latest.None? || job.height >= s.latest.value;
            && Valid(r)
            && r.webhooks == s.webhooks && r.latest == s.latest
            && r.group.pel == s.group.pel - {m.id}
            && r.group.lastDelivered == s.group.lastDelivered
            && (forall e :: e in r.pending <==> e in s.pending || (waits && e == Entry(job.height, job)))
            && (forall x :: x in r.group.entries <==>
                  (x in s.group.entries && x.id != m.id) || (!waits && x == G.Msg(s.group.nextId, job)))
  {
    G.AckDelValid(s.group, {m.id});
    StreamJobIsAlone(s, m);
    assert job !in JobsOf(s.pending);
    if s.latest.None? || job.height >= s.latest.value {
      ZAddExact(s.pending, job.height, job);
    } else {
      G.XAddValid(G.AckDel(s.group, {m.id}), job);
    }
    var r := Reschedule(s, m.id, job);
    forall id ensures LiveJobs(r, id) == LiveJobs(s, id) {
      RescheduleLive(s, m, job, id);
    }
  }

  lemma RescheduleLive(s: Shard, m: G.Msg<Job>, job: Job, id: WebhookId)
    requires Sorted(s.pending) && G.Increasing(s.group.entries) && m in s.group.entries
    requires job.id == m.data.id && job !in JobsOf(s.pending)
    ensures LiveJobs(Reschedule(s, m.id, job), id) == LiveJobs(s, id)
  {
    StreamCountWithout(s.group.entries, m, id);
    if s.latest.None? || job.height >= s.latest.value {
      ZAddCount(s.pending, job.height, job, id);
    } else {
      XAddCount(G.AckDel(s.group, {m.id}), job, id);
    }
  }

  /**
   The script never checks that XACK and XDEL removed anything. Run on a webhook of the set,
   it keeps one job per webhook exactly when the acknowledged message is still in the stream:
   otherwise the webhook ends up with two jobs.
   */
  lemma RescheduleForksUnlessPresent(s: Shard, msgId: nat, job: Job)
    requires Valid(s) && job.id in s.webhooks
    requires forall m :: m in s.group.entries && m.id == msgId ==> m.data.id == job.id
    requires job !in JobsOf(s.pending)
    ensures Valid(Reschedule(s, msgId, job)) <==> msgId in G.IdsOf(s.group.entries)
    ensures msgId !in G.IdsOf(s.group.entries) ==> LiveJobs(Reschedule(s, msgId, job), job.id) == 2
  {
    if msgId in G.IdsOf(s.group.entries) {
      var m :| m in s.group.entries && m.id == msgId;
      RescheduleExact(s, m, job);
    } else {
      assert LiveJobs(s, job.id) == 1;
      var acked := G.AckDel(s.group, {msgId});
      G.WithoutNothing(s.group.entries, {msgId});
      assert acked.entries == s.group.entries;
      ZAddCount(s.pending, job.height, job, job.id);
      XAddCount(acked, job, job.id);
    }
  }

  // ----- Reads -----

  lemma SameJobs(s: Shard, s': Shard)
    requires Valid(s) && G.Valid(s'.group)
    requires s'.pending == s.pending && s'.webhooks == s.webhooks && s'.group.entries == s.group.entries
    ensures Valid(s')
  {
    forall id ensures LiveJobs(s', id) == if id in s'.webhooks then 1 else 0 {
      assert LiveJobs(s', id) == LiveJobs(s, id);
    }
  }

  lemma ReadsKeepValid(s: Shard, c: G.Consumer, cursor: nat, n: nat)
    requires Valid(s) && n > 0
    ensures Valid(s.(group := G.ReadNew(s.group, c, n)))
    ensures Valid(s.(group := G.ReadBacklog(s.group, c, cursor, n)))
  {
    G.ReadNewValid(s.group, c, n);
    G.ReadNewFields(s.group, c, n);
    G.ReadBacklogValid(s.group, c, cursor, n);
    SameJobs(s, s.(group := G.ReadNew(s.group, c, n)));
    SameJobs(s, s.(group := G.ReadBacklog(s.group, c, cursor, n)));
  }

  // ----- No lost wake-up -----

  predicate Fresh(job: Job) {
    job.isNew && job.height == 0
  }

  /** Every pending job that is not freshly activated waits for a height the shard has not been flushed past. */
  ghost predicate Awaits(s: Shard) {
    forall e :: e in s.pending ==> Fresh(e.job) || s.latest.None? || e.score >= s.latest.value
  }

  /** Every script keeps the property; a flush even wakes the fresh jobs, provided the height is not zero. */
  lemma AwaitsKept(s: Shard, height: nat, ids: seq<WebhookId>, m: G.Msg<Job>, job: Job)
    requires Valid(s) && Awaits(s)
    ensures Awaits(Flush(s, height))
    ensures height > 0 ==> forall e :: e in Flush(s, height).pending ==> !Fresh(e.job)
    ensures Awaits(Activate(s, ids))
    ensures m in s.group.entries ==> Awaits(Drop(s, m.id, m.data.id))
    ensures m in s.group.entries && job.id == m.data.id ==> Awaits(Reschedule(s, m.id, job))
  {
    FlushExact(s, height);
    ActivateExact(s, ids);
    if m in s.group.entries && job.id == m.data.id {
      RescheduleExact(s, m, job);
    }
  }

  /** The first flush above a job's score moves it to the stream. */
  lemma FlushWakes(s: Shard, height: nat, e: Entry)
    requires Valid(s) && e in s.pending && e.score < height
    ensures exists m :: m in Flush(s, height).group.entries && m.data == e.job && m.id >= s.group.nextId
  {
    FlushExact(s, height);
    CountBelowExact(s.pending, height);
    var r := Flush(s, height);
    var i :| 0 <= i < |s.pending| && s.pending[i] == e;
    assert i < |s.pending| - |r.pending|;
    assert r.group.entries[|s.group.entries| + i] in r.group.entries;
  }

  /** Repeating a flush, whatever scripts ran in between, moves freshly activated jobs only. */
  lemma ReplayedFlushMovesOnlyFresh(s: Shard, height: nat)
    requires Valid(s) && Awaits(s) && s.latest == Some(height)
    ensures forall i :: 0 <= i < |s.pending| - |Flush(s, height).pending| ==> Fresh(s.pending[i].job)
    ensures forall m :: m in Flush(s, height).group.entries && m !in s.group.entries ==> Fresh(m.data)
  {
    FlushExact(s, height);
    var r := Flush(s, height);
    forall m | m in r.group.entries && m !in s.group.entries ensures Fresh(m.data) {
      var i :| 0 <= i < |r.group.entries| && r.group.entries[i] == m;
      assert i >= |s.group.entries|;
      assert m == G.Msg(s.group.nextId + (i - |s.group.entries|), s.pending[i - |s.group.entries|].job);
    }
  }
}
