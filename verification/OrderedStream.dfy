/** A stream read by one consumer in order. */
module OrderedStream {
  // The consumer reads batches of a fixed size, as the block router reads the block stream: it drains the backlog with a
  // wrapping cursor, then reads new messages, over and over. The handler acknowledges a whole batch at once or not at all,
  // and the consumer may crash at any point.

  import G = RedisGroup

  const CONSUMER: G.Consumer := 0

  datatype Phase<+T> = Scanning(cursor: nat) | AwaitingNew | Handling(batch: seq<G.Msg<T>>, fromBacklog: bool)

  /**
   Besides the state, what was published, which ids were acknowledged and the last of them,
   and the batches the handler was given.
   */
  datatype State<+T> = State(
    group: G.Group<T>,
    phase: Phase<T>,
    published: seq<T>,
    acked: set<nat>,
    ackedUpTo: nat,
    calls: seq<seq<G.Msg<T>>>)

  datatype Step<+T> = Publish(data: T) | ReadBacklog | ReadNew | HandlerAcks | HandlerFails | Crash

  ghost function Init<T(!new)>(): State<T> {
    State(G.Empty(), Scanning(0), [], {}, 0, [])
  }

  ghost predicate Enabled<T(!new)>(s: State<T>, step: Step<T>, n: nat) {
    match step
    case Publish(_) => true
    case ReadBacklog => s.phase.Scanning?
    case ReadNew => s.phase.AwaitingNew? && G.NewBatch(s.group, n) != []
    case HandlerAcks => s.phase.Handling? && s.phase.batch != []
    case HandlerFails => s.phase.Handling? && s.phase.batch != []
    case Crash => true
  }

  /** Where the consumer goes on after a batch, whether the handler failed or not. */
  ghost function Resume<T(!new)>(p: Phase<T>): Phase<T>
    requires p.Handling? && p.batch != []
  {
    if p.fromBacklog then Scanning(p.batch[|p.batch| - 1].id) else Scanning(0)
  }

  ghost function Do<T(!new)>(s: State<T>, step: Step<T>, n: nat): State<T>
    requires Enabled(s, step, n)
  {
    match step
    case Publish(data) => s.(group := G.XAdd(s.group, data), published := s.published + [data])
    case ReadBacklog =>
      var batch := G.BacklogBatch(s.group, CONSUMER, s.phase.cursor, n);
      var s' := s.(group := G.ReadBacklog(s.group, CONSUMER, s.phase.cursor, n));
      if batch != [] then s'.(phase := Handling(batch, true), calls := s.calls + [batch])
      else if s.phase.cursor == 0 then s'.(phase := AwaitingNew)
      else s'.(phase := Scanning(0))
    case ReadNew =>
      var batch := G.NewBatch(s.group, n);
      s.(group := G.ReadNew(s.group, CONSUMER, n), phase := Handling(batch, false), calls := s.calls + [batch])
    case HandlerAcks =>
      var ids := G.IdsOf(s.phase.batch);
      s.(group := G.AckDel(s.group, ids), acked := s.acked + ids,
         ackedUpTo := s.phase.batch[|s.phase.batch| - 1].id, phase := Resume(s.phase))
    case HandlerFails => s.(phase := Resume(s.phase))
    case Crash => s.(phase := Scanning(0))
  }

  // ----- Consecutive messages -----

  /** `b` is the published messages with ids lo + 1, ..., hi, in order. */
  ghost predicate Slice<T(!new)>(b: seq<G.Msg<T>>, published: seq<T>, lo: nat, hi: nat) {
    && lo <= hi <= |published| && |b| == hi - lo
    && forall i :: 0 <= i < |b| ==> b[i] == G.Msg(lo + 1 + i, published[lo + i])
  }

  lemma SliceTail<T(!new)>(b: seq<G.Msg<T>>, published: seq<T>, lo: nat, hi: nat)
    requires Slice(b, published, lo, hi) && lo < hi
    ensures b[0] == G.Msg(lo + 1, published[lo]) && Slice(b[1..], published, lo + 1, hi)
  {
  }

  lemma SliceCut<T(!new)>(b: seq<G.Msg<T>>, published: seq<T>, lo: nat, mid: nat, hi: nat)
    requires Slice(b, published, lo, hi) && lo <= mid <= hi
    ensures Slice(b[..mid - lo], published, lo, mid) && Slice(b[mid - lo..], published, mid, hi)
  {
  }

  lemma SliceIds<T(!new)>(b: seq<G.Msg<T>>, published: seq<T>, lo: nat, hi: nat)
    requires Slice(b, published, lo, hi)
    ensures forall id :: id in G.IdsOf(b) <==> lo < id <= hi
  {
    forall id | lo < id <= hi ensures id in G.IdsOf(b) {
      assert b[id - lo - 1] in b;
    }
  }

  lemma SliceUnique<T(!new)>(a: seq<G.Msg<T>>, b: seq<G.Msg<T>>, published: seq<T>, lo: nat, hi: nat)
    requires Slice(a, published, lo, hi) && Slice(b, published, lo, hi)
    ensures a == b
  {
  }

  lemma {:induction false} AfterSlice<T(!new)>(b: seq<G.Msg<T>>, published: seq<T>, lo: nat, mid: nat, hi: nat)
    requires Slice(b, published, lo, hi) && lo <= mid <= hi
    ensures Slice(G.After(b, mid), published, mid, hi)
    decreases mid - lo
  {
    if lo < mid {
      SliceTail(b, published, lo, hi);
      AfterSlice(b[1..], published, lo + 1, mid, hi);
    }
  }

  lemma {:induction false} WithoutSlice<T(!new)>(b: seq<G.Msg<T>>, ids: set<nat>, published: seq<T>, lo: nat, mid: nat, hi: nat)
    requires Slice(b, published, lo, hi) && lo <= mid <= hi
    requires forall id :: lo < id <= hi ==> (id in ids <==> id <= mid)
    ensures Slice(G.Without(b, ids), published, mid, hi)
    decreases hi - lo
  {
    if lo < hi {
      SliceTail(b, published, lo, hi);
      if lo < mid {
        WithoutSlice(b[1..], ids, published, lo + 1, mid, hi);
      } else {
        WithoutSlice(b[1..], ids, published, lo + 1, lo + 1, hi);
      }
    }
  }

  lemma {:induction false} OwnedSlice<T(!new)>(
    b: seq<G.Msg<T>>, pel: map<nat, G.Delivery>, published: seq<T>, lo: nat, mid: nat, hi: nat)
    requires Slice(b, published, lo, hi) && lo <= mid <= hi
    requires forall id :: lo < id <= hi ==> (id in pel <==> id <= mid)
    requires forall id :: id in pel ==> pel[id].owner == CONSUMER
    ensures Slice(G.Owned(b, pel, CONSUMER, 0), published, lo, mid)
    decreases hi - lo
  {
    if lo < hi {
      SliceTail(b, published, lo, hi);
      if lo < mid {
        OwnedSlice(b[1..], pel, published, lo + 1, mid, hi);
      } else {
        OwnedSlice(b[1..], pel, published, lo + 1, lo + 1, hi);
      }
    }
  }

  lemma {:induction false} OwnsNothing<T(!new)>(b: seq<G.Msg<T>>, pel: map<nat, G.Delivery>, cursor: nat)
    requires forall id :: id in pel ==> id <= cursor
    ensures G.Owned(b, pel, CONSUMER, cursor) == []
  {
    if b != [] {
      OwnsNothing(b[1..], pel, cursor);
    }
  }

  // ----- The invariant -----

  ghost function LastCall<T(!new)>(s: State<T>): seq<G.Msg<T>>
    requires s.calls != []
  {
    s.calls[|s.calls| - 1]
  }

  /** What is left in the stream: the messages after the acknowledged ones, none missing; the delivered ones are pending. */
  ghost predicate StreamInv<T(!new)>(s: State<T>) {
    && s.group.nextId == |s.published| + 1
    && s.ackedUpTo <= s.group.lastDelivered <= |s.published|
    && Slice(s.group.entries, s.published, s.ackedUpTo, |s.published|)
    && (forall id :: id in s.group.pel <==> s.ackedUpTo < id <= s.group.lastDelivered)
    && (forall id :: id in s.group.pel ==> s.group.pel[id].owner == CONSUMER)
    && (forall id :: id in s.acked <==> 0 < id <= s.ackedUpTo)
  }

  /** The last batch given to the handler is the last one delivered; it is pending as a whole or not at all. */
  ghost predicate CallInv<T(!new)>(s: State<T>, n: nat) {
    if s.calls == [] then s.ackedUpTo == s.group.lastDelivered == 0
    else
      var last := LastCall(s);
      && 0 < |last| <= n && |last| <= s.group.lastDelivered
      && Slice(last, s.published, s.group.lastDelivered - |last|, s.group.lastDelivered)
      && (s.ackedUpTo == s.group.lastDelivered || s.ackedUpTo == s.group.lastDelivered - |last|)
  }

  ghost predicate PhaseInv<T(!new)>(s: State<T>) {
    match s.phase
    case Scanning(cursor) => cursor == 0 || cursor == s.group.lastDelivered
    case AwaitingNew => s.ackedUpTo == s.group.lastDelivered
    case Handling(batch, _) => s.calls != [] && batch == LastCall(s) && s.ackedUpTo < s.group.lastDelivered
  }

  ghost predicate Inv<T(!new)>(s: State<T>, n: nat) {
    StreamInv(s) && CallInv(s, n) && PhaseInv(s)
  }

  /** Each batch is the one before it again, or starts right behind it. */
  ghost predicate CallsInOrder<T(!new)>(calls: seq<seq<G.Msg<T>>>) {
    && (forall i :: 0 <= i < |calls| ==> calls[i] != [])
    && (calls != [] ==> calls[0] != [] && calls[0][0].id == 1)
    && (forall i :: 0 < i < |calls| ==> Follows(calls[i - 1], calls[i]))
  }

  ghost predicate Follows<T(!new)>(prev: seq<G.Msg<T>>, next: seq<G.Msg<T>>) {
    && prev != [] && next != []
    && (next == prev || next[0].id == prev[|prev| - 1].id + 1)
  }

  lemma InitInv<T(!new)>(n: nat)
    ensures Inv(Init<T>(), n)
  {
  }

  lemma PublishKeeps<T(!new)>(s: State<T>, data: T, n: nat)
    requires Inv(s, n)
    ensures Inv(Do(s, Publish(data), n), n)
  {
  }

  /** A scan from the start returns the whole pending batch; a scan from behind it returns nothing. */
  lemma BacklogIsLastBatch<T(!new)>(s: State<T>, n: nat)
    requires Inv(s, n) && s.phase.Scanning? && n > 0
    ensures var batch := G.BacklogBatch(s.group, CONSUMER, s.phase.cursor, n);
            if s.phase.cursor == 0 && s.ackedUpTo < s.group.lastDelivered then s.calls != [] && batch == LastCall(s)
            else batch == []
  {
    if s.phase.cursor == 0 && s.ackedUpTo < s.group.lastDelivered {
      OwnedSlice(s.group.entries, s.group.pel, s.published, s.ackedUpTo, s.group.lastDelivered, |s.published|);
      SliceUnique(G.BacklogBatch(s.group, CONSUMER, 0, n), LastCall(s), s.published, s.ackedUpTo, s.group.lastDelivered);
    } else {
      OwnsNothing(s.group.entries, s.group.pel, s.phase.cursor);
    }
  }

  lemma ReadBacklogStream<T(!new)>(s: State<T>, n: nat)
    requires StreamInv(s) && s.phase.Scanning?
    ensures StreamInv(Do(s, ReadBacklog, n))
  {
  }

  lemma ReadBacklogKeeps<T(!new)>(s: State<T>, n: nat)
    requires Inv(s, n) && s.phase.Scanning? && n > 0
    ensures Inv(Do(s, ReadBacklog, n), n)
  {
    ReadBacklogStream(s, n);
    BacklogIsLastBatch(s, n);
    var r := Do(s, ReadBacklog, n);
    assert r.calls != s.calls ==> LastCall(r) == LastCall(s);
  }

  /**
   A batch from the backlog that failed comes again only when the scan has reached the end and starts over: the next
   read finds nothing, and the one after it the same batch.
   */
  lemma FailedBatchComesAgain<T(!new)>(s: State<T>, failed: State<T>, wrapped: State<T>, n: nat)
    requires Inv(s, n) && n > 0 && Enabled(s, HandlerFails, n) && s.phase.fromBacklog
    requires failed == Do(s, HandlerFails, n) && Enabled(failed, ReadBacklog, n) && wrapped == Do(failed, ReadBacklog, n)
    ensures wrapped.calls == s.calls && wrapped.phase == Scanning(0)
    ensures Do(wrapped, ReadBacklog, n).phase == Handling(s.phase.batch, true)
    ensures Do(wrapped, ReadBacklog, n).calls == s.calls + [s.phase.batch]
  {
    StepKeepsInv(s, HandlerFails, n);
    EndFindsNothing(failed, n);
    ReadBacklogKeeps(failed, n);
    StartFindsBatch(wrapped, n);
  }

  lemma EndFindsNothing<T(!new)>(s: State<T>, n: nat)
    requires Inv(s, n) && n > 0 && s.phase.Scanning? && s.phase.cursor > 0
    ensures var r := Do(s, ReadBacklog, n);
            && r.calls == s.calls && r.phase == Scanning(0)
            && r.ackedUpTo == s.ackedUpTo && r.group.lastDelivered == s.group.lastDelivered
  {
    BacklogIsLastBatch(s, n);
  }

  lemma StartFindsBatch<T(!new)>(s: State<T>, n: nat)
    requires Inv(s, n) && n > 0 && s.phase == Scanning(0) && s.ackedUpTo < s.group.lastDelivered
    ensures s.calls != [] && Do(s, ReadBacklog, n).phase == Handling(LastCall(s), true)
    ensures Do(s, ReadBacklog, n).calls == s.calls + [LastCall(s)]
  {
    BacklogIsLastBatch(s, n);
  }

  /** New messages are read only when nothing is pending, and they come right behind the last batch. */
  lemma NewBatchIsNext<T(!new)>(s: State<T>, n: nat)
    requires StreamInv(s) && s.ackedUpTo == s.group.lastDelivered && n > 0
    ensures var batch := G.NewBatch(s.group, n);
            && |batch| <= n
            && Slice(batch, s.published, s.group.lastDelivered, s.group.lastDelivered + |batch|)
  {
    var rest := G.After(s.group.entries, s.group.lastDelivered);
    AfterSlice(s.group.entries, s.published, s.ackedUpTo, s.group.lastDelivered, |s.published|);
    if n < |rest| {
      SliceCut(rest, s.published, s.group.lastDelivered, s.group.lastDelivered + n, |s.published|);
    }
  }

  lemma ReadNewStream<T(!new)>(s: State<T>, n: nat)
    requires StreamInv(s) && s.ackedUpTo == s.group.lastDelivered && Enabled(s, ReadNew, n) && n > 0
    ensures var r := Do(s, ReadNew, n);
            && StreamInv(r)
            && r.group.lastDelivered == s.group.lastDelivered + |G.NewBatch(s.group, n)|
  {
    NewBatchIsNext(s, n);
    var batch := G.NewBatch(s.group, n);
    var pos := s.group.lastDelivered;
    SliceIds(batch, s.published, pos, pos + |batch|);
    assert G.ReadNew(s.group, CONSUMER, n).lastDelivered == batch[|batch| - 1].id == pos + |batch|;
  }

  lemma ReadNewBatch<T(!new)>(s: State<T>, n: nat)
    requires StreamInv(s) && s.ackedUpTo == s.group.lastDelivered && Enabled(s, ReadNew, n) && n > 0
    ensures var batch, r := G.NewBatch(s.group, n), Do(s, ReadNew, n);
            && 0 < |batch| <= n && Slice(batch, s.published, s.group.lastDelivered, s.group.lastDelivered + |batch|)
            && r.published == s.published && r.ackedUpTo == s.ackedUpTo
            && r.group.lastDelivered == s.group.lastDelivered + |batch|
            && r.calls == s.calls + [batch] && r.phase == Handling(batch, false) && StreamInv(r)
  {
    NewBatchIsNext(s, n);
    ReadNewStream(s, n);
  }

  lemma Taken<T(!new)>(r: State<T>, batch: seq<G.Msg<T>>, n: nat)
    requires StreamInv(r) && r.calls != [] && LastCall(r) == batch && 0 < |batch| <= n && r.phase == Handling(batch, false)
    requires r.group.lastDelivered == r.ackedUpTo + |batch|
    requires Slice(batch, r.published, r.ackedUpTo, r.group.lastDelivered)
    ensures Inv(r, n)
  {
  }

  lemma ReadNewInv<T(!new)>(s: State<T>, n: nat, r: State<T>)
    requires StreamInv(s) && s.ackedUpTo == s.group.lastDelivered && Enabled(s, ReadNew, n) && n > 0
    requires r == Do(s, ReadNew, n)
    ensures Inv(r, n)
  {
    ReadNewBatch(s, n);
    Taken(r, LastCall(r), n);
  }

  lemma ReadNewKeeps<T(!new)>(s: State<T>, n: nat)
    requires Inv(s, n) && Enabled(s, ReadNew, n) && n > 0
    ensures Inv(Do(s, ReadNew, n), n)
  {
    ReadNewInv(s, n, Do(s, ReadNew, n));
  }

  lemma HandlerAcksKeeps<T(!new)>(s: State<T>, n: nat)
    requires Inv(s, n) && Enabled(s, HandlerAcks, n)
    ensures Inv(Do(s, HandlerAcks, n), n)
  {
    AckedStream(s, LastCall(s), n);
  }

  /** Acknowledging the pending batch leaves nothing pending. */
  lemma AckedStream<T(!new)>(s: State<T>, last: seq<G.Msg<T>>, n: nat)
    requires StreamInv(s) && Enabled(s, HandlerAcks, n) && s.phase.batch == last
    requires Slice(last, s.published, s.ackedUpTo, s.group.lastDelivered)
    ensures StreamInv(Do(s, HandlerAcks, n)) && Do(s, HandlerAcks, n).ackedUpTo == s.group.lastDelivered
  {
    SliceIds(last, s.published, s.ackedUpTo, s.group.lastDelivered);
    WithoutSlice(s.group.entries, G.IdsOf(last), s.published, s.ackedUpTo, s.group.lastDelivered, |s.published|);
  }

  lemma StepKeepsInv<T(!new)>(s: State<T>, step: Step<T>, n: nat)
    requires Inv(s, n) && Enabled(s, step, n) && n > 0
    ensures Inv(Do(s, step, n), n)
  {
    match step
    case Publish(data) => PublishKeeps(s, data, n);
    case ReadBacklog => ReadBacklogKeeps(s, n);
    case ReadNew => ReadNewKeeps(s, n);
    case HandlerAcks => HandlerAcksKeeps(s, n);
    case HandlerFails =>
    case Crash =>
  }

  lemma NewBatchFollows<T(!new)>(s: State<T>, n: nat)
    requires Inv(s, n) && Enabled(s, ReadNew, n) && n > 0
    ensures var batch := G.NewBatch(s.group, n);
            batch != [] && if s.calls == [] then batch[0].id == 1 else Follows(LastCall(s), batch)
  {
    NewBatchIsNext(s, n);
    assert G.NewBatch(s.group, n)[0].id == s.group.lastDelivered + 1;
  }

  lemma CallsExtended<T(!new)>(calls: seq<seq<G.Msg<T>>>, batch: seq<G.Msg<T>>)
    requires CallsInOrder(calls)
    requires batch != [] && if calls == [] then batch[0].id == 1 else Follows(calls[|calls| - 1], batch)
    ensures CallsInOrder(calls + [batch])
  {
  }

  lemma StepKeepsOrder<T(!new)>(s: State<T>, step: Step<T>, n: nat)
    requires Inv(s, n) && Enabled(s, step, n) && n > 0 && CallsInOrder(s.calls)
    ensures CallsInOrder(Do(s, step, n).calls)
  {
    if step.ReadBacklog? {
      BacklogIsLastBatch(s, n);
      var batch := G.BacklogBatch(s.group, CONSUMER, s.phase.cursor, n);
      if batch != [] {
        CallsExtended(s.calls, batch);
      }
    } else if step.ReadNew? {
      NewBatchFollows(s, n);
      CallsExtended(s.calls, G.NewBatch(s.group, n));
    }
  }

  /** The batch consists of consecutive published messages. */
  ghost predicate Consecutive<T(!new)>(published: seq<T>, call: seq<G.Msg<T>>) {
    call != [] && call[0].id >= 1 && Slice(call, published, call[0].id - 1, call[0].id - 1 + |call|)
  }

  ghost predicate AllConsecutive<T(!new)>(published: seq<T>, calls: seq<seq<G.Msg<T>>>) {
    forall i :: 0 <= i < |calls| ==> Consecutive(published, calls[i])
  }

  lemma LastIsConsecutive<T(!new)>(s: State<T>, n: nat)
    requires Inv(s, n) && s.calls != []
    ensures Consecutive(s.published, LastCall(s))
  {
  }

  lemma CallsGrow<T(!new)>(s: State<T>, step: Step<T>, n: nat)
    requires Enabled(s, step, n)
    ensures var r := Do(s, step, n); s.published <= r.published && s.calls <= r.calls && |r.calls| <= |s.calls| + 1
  {
  }

  lemma StepKeepsConsecutive<T(!new)>(s: State<T>, step: Step<T>, n: nat)
    requires Inv(s, n) && Enabled(s, step, n) && n > 0 && AllConsecutive(s.published, s.calls)
    ensures AllConsecutive(Do(s, step, n).published, Do(s, step, n).calls)
  {
    var r := Do(s, step, n);
    StepKeepsInv(s, step, n);
    CallsGrow(s, step, n);
    forall i | 0 <= i < |r.calls| ensures Consecutive(r.published, r.calls[i]) {
      if i < |s.calls| {
        assert Consecutive(s.published, s.calls[i]) && r.calls[i] == s.calls[i];
      } else {
        assert r.calls[i] == LastCall(r);
        LastIsConsecutive(r, n);
      }
    }
  }

  // ----- Whole runs -----

  ghost predicate IsRun<T(!new)>(s: State<T>, steps: seq<Step<T>>, n: nat)
    decreases |steps|
  {
    steps == [] || (Enabled(s, steps[0], n) && IsRun(Do(s, steps[0], n), steps[1..], n))
  }

  ghost function After<T(!new)>(s: State<T>, steps: seq<Step<T>>, n: nat): State<T>
    requires IsRun(s, steps, n)
    decreases |steps|
  {
    if steps == [] then s else After(Do(s, steps[0], n), steps[1..], n)
  }

  lemma {:induction false} RunKeeps<T(!new)>(s: State<T>, steps: seq<Step<T>>, n: nat)
    requires n > 0 && Inv(s, n) && CallsInOrder(s.calls) && AllConsecutive(s.published, s.calls) && IsRun(s, steps, n)
    ensures var r := After(s, steps, n); Inv(r, n) && CallsInOrder(r.calls) && AllConsecutive(r.published, r.calls)
    decreases |steps|
  {
    if steps != [] {
      StepKeepsInv(s, steps[0], n);
      StepKeepsOrder(s, steps[0], n);
      StepKeepsConsecutive(s, steps[0], n);
      RunKeeps(Do(s, steps[0], n), steps[1..], n);
    }
  }

  /**
   In every run, with crashes and handler failures anywhere: the handler is given consecutive published messages in
   order, each batch either right behind the one before it or exactly that one again; the acknowledged ids
   form a prefix of the stream; new messages are only awaited while nothing is pending; and whatever the
   handler is working on comes right behind the acknowledged prefix.
   */
  lemma BatchesAreHandledInOrder<T(!new)>(steps: seq<Step<T>>, n: nat)
    requires n > 0 && IsRun(Init<T>(), steps, n)
    ensures var s := After(Init<T>(), steps, n);
            && CallsInOrder(s.calls) && AllConsecutive(s.published, s.calls)
            && (forall id :: id in s.acked <==> 0 < id <= s.ackedUpTo)
            && (s.phase.AwaitingNew? ==> s.ackedUpTo == s.group.lastDelivered)
            && (s.phase.Handling? ==>
                  && Slice(s.phase.batch, s.published, s.ackedUpTo, s.ackedUpTo + |s.phase.batch|)
                  && 0 < |s.phase.batch| <= n)
  {
    InitInv<T>(n);
    RunKeeps(Init<T>(), steps, n);
  }
}
