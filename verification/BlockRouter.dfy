/** The block router: stores a batch of blocks, flushes every shard at the batch's largest height, acknowledges. */
module BlockRouters {
  import opened BlockTables
  import opened BlockStores
  import opened PendingSet
  import C = CachedStore
  import G = RedisGroup
  import O = OrderedStream
  import S = WebhookShard

  function MaxHeight(msgs: seq<G.Msg<Block>>): (h: nat)
    requires msgs != []
    ensures forall m :: m in msgs ==> m.data.height <= h
    ensures exists m :: m in msgs && m.data.height == h
  {
    if |msgs| == 1 then msgs[0].data.height
    else
      var rest := MaxHeight(msgs[1..]);
      assert forall m :: m in msgs <==> m == msgs[0] || m in msgs[1..];
      if msgs[0].data.height > rest then msgs[0].data.height else rest
  }

  lemma MaxHeightUnique(msgs: seq<G.Msg<Block>>, h: nat, top: nat)
    requires forall k :: 0 <= k < |msgs| ==> msgs[k].data.height <= h
    requires top < |msgs| && msgs[top].data.height == h
    ensures h == MaxHeight(msgs)
  {
    assert msgs[top] in msgs;
  }

  function BlocksOf(msgs: seq<G.Msg<Block>>): (blocks: seq<Block>)
    ensures |blocks| == |msgs| && forall i :: 0 <= i < |msgs| ==> blocks[i] == msgs[i].data
  {
    seq(|msgs|, i requires 0 <= i < |msgs| => msgs[i].data)
  }

  /** A flush at one height of the shards that can be reached. */
  ghost function FlushReachable(shards: seq<S.Shard>, up: seq<bool>, height: nat): (r: seq<S.Shard>)
    requires |up| == |shards|
    ensures |r| == |shards|
    ensures forall i :: 0 <= i < |shards| ==> r[i] == if up[i] then S.Flush(shards[i], height) else shards[i]
  {
    seq(|shards|, i requires 0 <= i < |shards| => if up[i] then S.Flush(shards[i], height) else shards[i])
  }

  class BlockRouter {
    var blockStream: G.Group<Block>
    var shards: seq<S.Shard>
    const blockStore: RedisOptimizedBlockStore

    constructor (blockStream: G.Group<Block>, shards: seq<S.Shard>, blockStore: RedisOptimizedBlockStore)
      ensures this.blockStream == blockStream && this.shards == shards && this.blockStore == blockStore
    {
      this.blockStream, this.shards, this.blockStore := blockStream, shards, blockStore;
    }

    /**
     The handler. `storeUp` and `up[i]` say whether the block store and the i-th shard can be reached.
     All shards are flushed, whatever becomes of the others; only then is the batch acknowledged.
     */
    method HandleMessages(msgs: seq<G.Msg<Block>>, storeUp: bool, up: seq<bool>) returns (ok: bool)
      requires msgs != [] && |up| == |shards|
      requires blockStore.Valid() && C.Inv(blockStore.State())
      requires Consistent(C.Union(blockStore.State()), BlocksOf(msgs))
      modifies this, blockStore.redisStore
      ensures ok <==> storeUp && forall i :: 0 <= i < |up| ==> up[i]
      ensures blockStore.Valid()
      ensures blockStore.State() == if storeUp then C.Do(old(blockStore.State()), C.Put(BlocksOf(msgs)))
                                    else old(blockStore.State())
      ensures shards == if storeUp then FlushReachable(old(shards), up, MaxHeight(msgs)) else old(shards)
      ensures blockStream == if ok then G.AckDel(old(blockStream), G.IdsOf(msgs)) else old(blockStream)
    {
      var height, blocks, msgIDs := ParseMessages(msgs);
      if !storeUp {
        return false;
      }
      blockStore.PutBlocks(blocks);
      ok := FlushAll(height, up);
      if ok {
        blockStream := G.AckDel(blockStream, SetOf(msgIDs));
      }
    }

    /** All flushes are started, whatever becomes of the others, and all of them are waited for. */
    method FlushAll(height: nat, up: seq<bool>) returns (allUp: bool)
      requires |up| == |shards|
      modifies this`shards
      ensures allUp <==> forall i :: 0 <= i < |up| ==> up[i]
      ensures shards == FlushReachable(old(shards), up, height)
    {
      ghost var target := FlushReachable(shards, up, height);
      allUp := true;
      var i := 0;
      while i < |shards|
        invariant 0 <= i <= |shards| == |target|
        invariant allUp <==> forall k :: 0 <= k < i ==> up[k]
        invariant forall k :: 0 <= k < |shards| ==> shards[k] == if k < i then target[k] else old(shards[k])
      {
        if up[i] {
          shards := shards[i := S.Flush(shards[i], height)];
        } else {
          allUp := false;
        }
        i := i + 1;
      }
    }
  }

  /** The batch's largest height, its documents and its message ids, filled in one pass. */
  method ParseMessages(msgs: seq<G.Msg<Block>>) returns (height: nat, blocks: seq<Block>, msgIDs: seq<nat>)
    requires msgs != []
    ensures height == MaxHeight(msgs)
    ensures blocks == BlocksOf(msgs)
    ensures SetOf(msgIDs) == G.IdsOf(msgs)
  {
    var docs := new Block[|msgs|](_ => Block(0, ""));
    var ids := new nat[|msgs|](_ => 0);
    height := msgs[0].data.height;
    ghost var top := 0;
    var i := 0;
    while i < |msgs|
      invariant 0 <= i <= |msgs|
      invariant forall k :: 0 <= k < i ==> msgs[k].data.height <= height
      invariant 0 <= top < |msgs| && msgs[top].data.height == height
      invariant forall k :: 0 <= k < i ==> docs[k] == msgs[k].data
      invariant forall k :: 0 <= k < i ==> ids[k] == msgs[k].id
    {
      if height < msgs[i].data.height {
        height, top := msgs[i].data.height, i;
      }
      ids[i] := msgs[i].id;
      docs[i] := msgs[i].data;
      i := i + 1;
    }
    MaxHeightUnique(msgs, height, top);
    blocks, msgIDs := docs[..], ids[..];
    SameIds(msgIDs, msgs);
  }

  function SetOf(ids: seq<nat>): set<nat> {
    set k | 0 <= k < |ids| :: ids[k]
  }

  lemma SameIds(ids: seq<nat>, msgs: seq<G.Msg<Block>>)
    requires |ids| == |msgs| && forall k :: 0 <= k < |msgs| ==> ids[k] == msgs[k].id
    ensures SetOf(ids) == G.IdsOf(msgs)
  {
    forall id ensures id in SetOf(ids) <==> id in G.IdsOf(msgs) {
      if id in SetOf(ids) {
        var k :| 0 <= k < |ids| && ids[k] == id;
        assert msgs[k] in msgs;
      }
    }
  }

  // ----- A batch that is handled again and again -----

  /** Which of the store and the shards one call of the handler can reach. */
  datatype Attempt = Attempt(storeUp: bool, up: seq<bool>)

  /** What a call works on: the documents in the cache and the shards. */
  datatype Feed = Feed(cache: Table, shards: seq<S.Shard>)

  predicate Succeeds(a: Attempt) {
    a.storeUp && forall i :: 0 <= i < |a.up| ==> a.up[i]
  }

  /** What a call does, as in the contract of HandleMessages. */
  ghost function Handle(f: Feed, msgs: seq<G.Msg<Block>>, a: Attempt): (r: Feed)
    requires msgs != [] && |a.up| == |f.shards|
    ensures |r.shards| == |f.shards|
  {
    if !a.storeUp then f
    else Feed(InsertIfAbsent(f.cache, BlocksOf(msgs)), FlushReachable(f.shards, a.up, MaxHeight(msgs)))
  }

  lemma FlushAllAgain(shards: seq<S.Shard>, up: seq<bool>, all: seq<bool>, height: nat)
    requires |up| == |all| == |shards| && forall i :: 0 <= i < |all| ==> all[i]
    ensures FlushReachable(FlushReachable(shards, up, height), all, height) == FlushReachable(shards, all, height)
  {
    var once := FlushReachable(shards, up, height);
    var twice, direct := FlushReachable(once, all, height), FlushReachable(shards, all, height);
    forall i | 0 <= i < |shards| ensures twice[i] == direct[i] {
      if up[i] {
        assert once[i] == S.Flush(shards[i], height);
        S.FlushAbsorbs(shards[i], height, height);
      } else {
        assert once[i] == shards[i];
      }
    }
  }

  ghost function HandleEach(f: Feed, msgs: seq<G.Msg<Block>>, attempts: seq<Attempt>): (r: Feed)
    requires msgs != [] && forall a :: a in attempts ==> |a.up| == |f.shards|
    ensures |r.shards| == |f.shards|
    decreases |attempts|
  {
    if attempts == [] then f else HandleEach(Handle(f, msgs, attempts[0]), msgs, attempts[1..])
  }

  lemma {:induction false} InsertAgain(t: Table, bs: seq<Block>)
    requires forall b :: b in bs ==> b.height in t
    ensures InsertIfAbsent(t, bs) == t
  {
    if bs != [] {
      InsertAgain(t, bs[1..]);
    }
  }

  lemma {:induction false} InsertHolds(t: Table, bs: seq<Block>)
    ensures forall h :: h in t ==> h in InsertIfAbsent(t, bs)
    ensures forall b :: b in bs ==> b.height in InsertIfAbsent(t, bs)
    decreases |bs|
  {
    if bs != [] {
      var t' := if bs[0].height in t then t else t[bs[0].height := bs[0].data];
      InsertHolds(t', bs[1..]);
      assert forall b :: b in bs <==> b == bs[0] || b in bs[1..];
    }
  }

  /** A call that succeeds undoes whatever a partial failure before it left behind. */
  lemma SuccessAbsorbs(f: Feed, msgs: seq<G.Msg<Block>>, a: Attempt, good: Attempt)
    requires msgs != [] && |a.up| == |good.up| == |f.shards| && Succeeds(good)
    ensures Handle(Handle(f, msgs, a), msgs, good) == Handle(f, msgs, good)
  {
    var blocks := BlocksOf(msgs);
    InsertHolds(f.cache, blocks);
    InsertAgain(InsertIfAbsent(f.cache, blocks), blocks);
    FlushAllAgain(f.shards, a.up, good.up, MaxHeight(msgs));
  }

  /**
   However many calls fail and wherever they fail, once the batch has been handled successfully the cache and
   every shard are as if it had been handled once.
   */
  lemma {:induction false} RetriesConverge(f: Feed, msgs: seq<G.Msg<Block>>, failed: seq<Attempt>, good: Attempt)
    requires msgs != [] && |good.up| == |f.shards| && Succeeds(good)
    requires forall a :: a in failed ==> |a.up| == |f.shards|
    ensures Handle(HandleEach(f, msgs, failed), msgs, good) == Handle(f, msgs, good)
    decreases |failed|
  {
    if failed != [] {
      RetriesConverge(Handle(f, msgs, failed[0]), msgs, failed[1..], good);
      SuccessAbsorbs(f, msgs, failed[0], good);
    }
  }

  /** One flush per batch does what one flush per message would do, when the messages come in order of height. */
  lemma OneFlushPerBatch(s: S.Shard, msgs: seq<G.Msg<Block>>)
    requires msgs != []
    requires forall i, j :: 0 <= i < j < |msgs| ==> msgs[i].data.height <= msgs[j].data.height
    ensures S.FlushEach(s, seq(|msgs|, i requires 0 <= i < |msgs| => msgs[i].data.height)) == S.Flush(s, MaxHeight(msgs))
  {
    var heights := seq(|msgs|, i requires 0 <= i < |msgs| => msgs[i].data.height);
    S.FlushOnceForBatch(s, heights);
    MaxHeightUnique(msgs, heights[|msgs| - 1], |msgs| - 1);
  }

  /** The blocks come to the stream in consecutive order of height. */
  ghost predicate ConsecutiveHeights(published: seq<Block>) {
    forall i :: 0 <= i < |published| ==> published[i].height == published[0].height + i
  }

  lemma BatchHeights(published: seq<Block>, call: seq<G.Msg<Block>>)
    requires ConsecutiveHeights(published) && O.Consecutive(published, call)
    ensures forall i :: 0 <= i < |call| ==> call[i].data.height == published[0].height + call[0].id - 1 + i
    ensures MaxHeight(call) == published[0].height + call[0].id - 1 + |call| - 1
  {
    var lo := call[0].id - 1;
    forall i | 0 <= i < |call| ensures call[i].data.height == published[0].height + lo + i {
      assert call[i] == G.Msg(lo + 1 + i, published[lo + i]);
    }
    MaxHeightUnique(call, published[0].height + lo + |call| - 1, |call| - 1);
  }

  /** What the batch before it says about a batch. */
  predicate ComesAfter(prev: seq<G.Msg<Block>>, next: seq<G.Msg<Block>>) {
    && prev != [] && next != []
    && (next == prev || next[0].data.height == MaxHeight(prev) + 1)
    && MaxHeight(prev) <= MaxHeight(next)
  }

  predicate OneByOne(batch: seq<G.Msg<Block>>) {
    batch != [] && forall i :: 0 <= i < |batch| ==> batch[i].data.height == batch[0].data.height + i
  }

  lemma NextBatch(published: seq<Block>, prev: seq<G.Msg<Block>>, next: seq<G.Msg<Block>>)
    requires ConsecutiveHeights(published)
    requires O.Consecutive(published, prev) && O.Consecutive(published, next) && O.Follows(prev, next)
    ensures ComesAfter(prev, next)
  {
    BatchHeights(published, prev);
    BatchHeights(published, next);
    assert prev[|prev| - 1].id == prev[0].id + |prev| - 1;
  }

  /**
   Over every run of the router's consumer, whatever fails or crashes, on a stream of consecutive heights: each
   batch that the handler gets has consecutive heights, it is the batch before it again or begins one height above
   it, and so the heights of the flushes never fall.
   */
  lemma FlushHeightsNeverFall(steps: seq<O.Step<Block>>, n: nat)
    requires n > 0 && O.IsRun(O.Init<Block>(), steps, n)
    requires ConsecutiveHeights(O.After(O.Init<Block>(), steps, n).published)
    ensures var calls := O.After(O.Init<Block>(), steps, n).calls;
            && (forall i :: 0 <= i < |calls| ==> OneByOne(calls[i]))
            && (forall i :: 0 < i < |calls| ==> ComesAfter(calls[i - 1], calls[i]))
  {
    O.BatchesAreHandledInOrder(steps, n);
    var s := O.After(O.Init<Block>(), steps, n);
    AllInOrder(s.published, s.calls);
  }

  lemma AllInOrder(published: seq<Block>, calls: seq<seq<G.Msg<Block>>>)
    requires ConsecutiveHeights(published) && O.AllConsecutive(published, calls) && O.CallsInOrder(calls)
    ensures forall i :: 0 <= i < |calls| ==> OneByOne(calls[i])
    ensures forall i :: 0 < i < |calls| ==> ComesAfter(calls[i - 1], calls[i])
  {
    forall i | 0 <= i < |calls| ensures OneByOne(calls[i]) {
      BatchHeights(published, calls[i]);
    }
    forall i | 0 < i < |calls| ensures ComesAfter(calls[i - 1], calls[i]) {
      assert O.Consecutive(published, calls[i - 1]);
      NextBatch(published, calls[i - 1], calls[i]);
    }
  }

  // ----- Other scripts between two calls -----

  datatype Script =
    | Activate(ids: seq<WebhookId>)
    | Drop(m: G.Msg<Job>)
    | Reschedule(m: G.Msg<Job>, job: Job)
    | ReadNew(c: G.Consumer, count: nat)
    | ReadBacklog(c: G.Consumer, cursor: nat, count: nat)

  /** Relays acknowledge messages of the stream and reschedule the webhook of the message. */
  predicate Proper(s: S.Shard, script: Script) {
    match script
    case Activate(_) => true
    case Drop(m) => m in s.group.entries
    case Reschedule(m, job) => m in s.group.entries && job.id == m.data.id
    case ReadNew(_, count) => count > 0
    case ReadBacklog(_, _, count) => count > 0
  }

  function Run(s: S.Shard, script: Script): S.Shard {
    match script
    case Activate(ids) => S.Activate(s, ids)
    case Drop(m) => S.Drop(s, m.id, m.data.id)
    case Reschedule(m, job) => S.Reschedule(s, m.id, job)
    case ReadNew(c, count) => s.(group := G.ReadNew(s.group, c, count))
    case ReadBacklog(c, cursor, count) => s.(group := G.ReadBacklog(s.group, c, cursor, count))
  }

  predicate AllProper(s: S.Shard, scripts: seq<Script>)
    decreases |scripts|
  {
    scripts == [] || (Proper(s, scripts[0]) && AllProper(Run(s, scripts[0]), scripts[1..]))
  }

  function RunAll(s: S.Shard, scripts: seq<Script>): S.Shard
    decreases |scripts|
  {
    if scripts == [] then s else RunAll(Run(s, scripts[0]), scripts[1..])
  }

  lemma ScriptKeeps(s: S.Shard, script: Script)
    requires S.Valid(s) && S.Awaits(s) && Proper(s, script)
    ensures S.Valid(Run(s, script)) && S.Awaits(Run(s, script)) && Run(s, script).latest == s.latest
  {
    var m0 := G.Msg(0, S.FreshJob(0));
    match script
    case Activate(ids) =>
      S.ActivateExact(s, ids);
      S.AwaitsKept(s, 0, ids, m0, m0.data);
    case Drop(m) =>
      S.DropExact(s, m);
    case Reschedule(m, job) =>
      S.RescheduleExact(s, m, job);
      S.AwaitsKept(s, 0, [], m, job);
    case ReadNew(c, count) =>
      S.ReadsKeepValid(s, c, 0, count);
    case ReadBacklog(c, cursor, count) =>
      S.ReadsKeepValid(s, c, cursor, count);
  }

  lemma {:induction false} ScriptsKeep(s: S.Shard, scripts: seq<Script>)
    requires S.Valid(s) && S.Awaits(s) && AllProper(s, scripts)
    ensures var r := RunAll(s, scripts); S.Valid(r) && S.Awaits(r) && r.latest == s.latest
    decreases |scripts|
  {
    if scripts != [] {
      ScriptKeeps(s, scripts[0]);
      ScriptsKeep(Run(s, scripts[0]), scripts[1..]);
    }
  }

  /**
   A shard is flushed, then relays and activations run any scripts, then the batch is replayed and the shard is
   flushed again at the same height: this moves no job but freshly activated ones.
   */
  lemma ReplayMovesOnlyFresh(s: S.Shard, height: nat, scripts: seq<Script>)
    requires S.Valid(s) && S.Awaits(s) && AllProper(S.Flush(s, height), scripts)
    ensures var r := RunAll(S.Flush(s, height), scripts);
            forall m :: m in S.Flush(r, height).group.entries && m !in r.group.entries ==> S.Fresh(m.data)
  {
    S.FlushValid(s, height);
    S.AwaitsKept(s, height, [], G.Msg(0, S.FreshJob(0)), S.FreshJob(0));
    ScriptsKeep(S.Flush(s, height), scripts);
    S.ReplayedFlushMovesOnlyFresh(RunAll(S.Flush(s, height), scripts), height);
  }
}
