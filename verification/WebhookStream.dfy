/** The webhook stream of one shard, as the object whose methods run the scripts in place. */
module WebhookStreams {
  import opened Wrappers
  import opened PendingSet
  import S = WebhookShard
  import G = RedisGroup

  class WebhookStream {
    var latest: Option<nat>
    var pending: seq<Entry>
    var group: G.Group<Job>
    var webhooks: set<WebhookId>

    ghost function State(): S.Shard
      reads this
    {
      S.Shard(latest, pending, group, webhooks)
    }

    constructor ()
      ensures State() == S.EmptyShard()
    {
      latest, pending, group, webhooks := None, [], G.Empty(), {};
    }

    /** The activate script. `ok` is false when the script reports an error. */
    method Activate(ids: seq<WebhookId>) returns (ok: bool)
      modifies this
      ensures State() == S.Activate(old(State()), ids)
      ensures ok == S.ActivateReportsSuccess(old(State()), ids)
    {
      if |ids| == 0 {
        // SMISMEMBER without members is an error
        assert webhooks + S.SetOf(ids) == webhooks;
        return false;
      }
      var jobs := NewJobs(ids);
      webhooks := webhooks + S.SetOf(ids);
      // ZADD without members is an error
      ok := jobs != [];
      var k := 0;
      assert jobs[0..] == jobs;
      while k < |jobs|
        invariant 0 <= k <= |jobs|
        invariant S.ZAddAll(pending, jobs[k..]) == S.ZAddAll(old(pending), jobs)
        invariant latest == old(latest) && group == old(group) && webhooks == old(webhooks) + S.SetOf(ids)
      {
        assert jobs[k..][1..] == jobs[k + 1..];
        pending := ZAdd(pending, 0, jobs[k]);
        k := k + 1;
      }
    }

    /** The first loop of the activate script: a job for every id that is not active yet. */
    method NewJobs(ids: seq<WebhookId>) returns (jobs: seq<Job>)
      ensures jobs == S.FreshJobs(webhooks, ids)
    {
      jobs := [];
      var i := 0;
      while i < |ids|
        invariant 0 <= i <= |ids|
        invariant jobs == S.FreshJobs(webhooks, ids[..i])
      {
        NextFresh(webhooks, ids, i);
        if ids[i] !in webhooks {
          jobs := jobs + [S.FreshJob(ids[i])];
        }
        i := i + 1;
      }
      assert ids[..i] == ids;
    }

    /** The Flush script, with its pop-everything path and its one-by-one loop. */
    method Flush(height: nat)
      requires Sorted(pending)
      modifies this
      ensures State() == S.Flush(old(State()), height)
    {
      latest := Some(height);
      if |pending| == 0 {
        return;
      }
      ghost var result := S.Flush(State(), height);
      S.CountBelowExact(pending, height);
      var maxElem := pending[|pending| - 1];
      if maxElem.score < height {
        while true
          invariant S.Flush(State(), height) == result
          invariant latest == Some(height)
          invariant forall i :: 0 <= i < |pending| ==> pending[i].score < height
          decreases |pending|
        {
          if |pending| == 0 {
            return;
          }
          PopMinStep(State(), height);
          var elem := pending[0];
          pending := pending[1..];
          group := G.XAdd(group, elem.job);
        }
      }
      while true
        invariant S.Flush(State(), height) == result
        invariant latest == Some(height)
        decreases |pending|
      {
        if |pending| == 0 {
          return;
        }
        if pending[0].score >= height {
          return;
        }
        PopMinStep(State(), height);
        var elem := pending[0];
        pending := pending[1..];
        group := G.XAdd(group, elem.job);
      }
    }

    /** XAckDel: without a new job the webhook is dropped, with one it is rescheduled. */
    method XAckDel(oldMsg: G.Msg<Job>, newJob: Option<Job>)
      modifies this
      ensures State() == if newJob.None? then S.Drop(old(State()), oldMsg.id, oldMsg.data.id)
                         else S.Reschedule(old(State()), oldMsg.id, newJob.value)
    {
      group := G.AckDel(group, {oldMsg.id});
      if newJob.None? {
        webhooks := webhooks - {oldMsg.data.id};
        return;
      }
      var job := newJob.value;
      if latest.None? {
        pending := ZAdd(pending, job.height, job);
        return;
      }
      if job.height >= latest.value {
        pending := ZAdd(pending, job.height, job);
      } else {
        group := G.XAdd(group, job);
      }
    }

    /**
     XREADGROUP with an explicit id. RedisGroup.BacklogBatchExact and ReadBacklogExact say which entries it returns
     and whose delivery counts it raises.
     */
    method ReadBacklog(c: G.Consumer, cursor: nat, count: nat) returns (msgs: seq<G.Msg<Job>>)
      modifies this`group
      ensures msgs == G.BacklogBatch(old(group), c, cursor, count)
      ensures group == G.ReadBacklog(old(group), c, cursor, count)
    {
      msgs := G.BacklogBatch(group, c, cursor, count);
      group := G.ReadBacklog(group, c, cursor, count);
    }

    /**
     XREADGROUP with ">". The command blocks while there is nothing to read; here it returns no message then.
     RedisGroup.NewBatchExact and ReadNewExact say which messages it returns and that they become pending for the reader.
     */
    method ReadNew(c: G.Consumer, count: nat) returns (msgs: seq<G.Msg<Job>>)
      modifies this`group
      ensures msgs == G.NewBatch(old(group), count)
      ensures group == G.ReadNew(old(group), c, count)
    {
      msgs := G.NewBatch(group, count);
      group := G.ReadNew(group, c, count);
    }

    /** XPENDING for one message of one consumer: its delivery count, or an error when it is not pending there. */
    method GetPendingMsg(c: G.Consumer, msgId: nat) returns (count: Option<nat>)
      ensures count.Some? <==> msgId in group.pel && group.pel[msgId].owner == c
      ensures count.Some? ==> count.value == group.pel[msgId].count
    {
      if msgId in group.pel && group.pel[msgId].owner == c {
        return Some(group.pel[msgId].count);
      }
      return None;
    }
  }

  function FreshFor(webhooks: set<WebhookId>, id: WebhookId): seq<Job> {
    if id in webhooks then [] else [S.FreshJob(id)]
  }

  lemma NextFresh(webhooks: set<WebhookId>, ids: seq<WebhookId>, i: nat)
    requires i < |ids|
    ensures S.FreshJobs(webhooks, ids[..i + 1]) == S.FreshJobs(webhooks, ids[..i]) + FreshFor(webhooks, ids[i])
  {
    assert ids[..i + 1] == ids[..i] + [ids[i]];
    FreshAppend(webhooks, ids[..i], ids[i]);
  }

  lemma {:induction false} FreshAppend(webhooks: set<WebhookId>, ids: seq<WebhookId>, id: WebhookId)
    ensures S.FreshJobs(webhooks, ids + [id]) == S.FreshJobs(webhooks, ids) + FreshFor(webhooks, id)
  {
    if ids == [] {
      assert ids + [id] == [id] && [id][1..] == [];
    } else {
      var tail := ids[1..];
      assert (ids + [id])[0] == ids[0] && (ids + [id])[1..] == tail + [id];
      FreshAppend(webhooks, tail, id);
      Associates(FreshFor(webhooks, ids[0]), S.FreshJobs(webhooks, tail), FreshFor(webhooks, id));
    }
  }

  lemma Associates(a: seq<Job>, b: seq<Job>, c: seq<Job>)
    ensures a + (b + c) == (a + b) + c
  {
  }

  /** Popping the least entry when it is below the height leaves the rest of the flush to be done. */
  lemma PopMinStep(s: S.Shard, height: nat)
    requires s.pending != [] && s.pending[0].score < height
    ensures S.Flush(s.(pending := s.pending[1..], group := G.XAdd(s.group, s.pending[0].job)), height)
            == S.Flush(s, height)
  {
    var p := s.pending;
    var k := S.CountBelow(p, height);
    assert p[1..][k - 1..] == p[k..];
    var jobs := S.Members(p[..k]);
    assert jobs[1..] == S.Members(p[1..][..k - 1]);
  }
}
