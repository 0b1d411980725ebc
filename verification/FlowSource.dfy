/**
 The block source for the Flow chain: a subscription that replays consecutive heights from the requested one,
 and that is replaced by a new one whenever it breaks.
 */
module FlowSources {
  import opened Wrappers
  import opened BlockTables

  /**
   What the main loop meets next. `fetched` says whether the block could be read from the node after all retries,
   `handled` whether the handler returned without an error, `resubscribed` whether a new subscription came up.
   A closed data channel and an error of the subscription are treated alike.
   */
  datatype Event =
    | ContextDone
    | Broken(fetched: bool, handled: bool, resubscribed: bool)
    | Received(fetched: bool, handled: bool)

  /** The loop goes on, the context is done, or Subscribe returns an error. */
  datatype Exit = Running | Stopped | Failed

  /** The block at each height. */
  type Chain = nat -> Data

  function BlocksFrom(chain: Chain, start: nat, n: nat): (blocks: seq<Block>)
    ensures |blocks| == n && forall i :: 0 <= i < n ==> blocks[i] == Block(start + i, chain(start + i))
  {
    seq(n, i requires 0 <= i => Block(start + i, chain(start + i)))
  }

  /** How many blocks the handler accepts, how many it refuses, and how the loop ends. */
  datatype Fate = Fate(accepted: nat, refused: nat, exit: Exit)

  function Later(n: nat, f: Fate): Fate {
    f.(accepted := n + f.accepted)
  }

  /** What one event does; the loop goes on after it or ends. */
  function Outcome(event: Event): Fate {
    match event
    case ContextDone => Fate(0, 0, Stopped)
    case Broken(fetched, handled, resubscribed) =>
      if fetched && !handled then Fate(0, 1, Failed)
      else Fate(if fetched then 1 else 0, 0, if resubscribed then Running else Failed)
    case Received(fetched, handled) =>
      if !fetched then Fate(0, 0, Failed) else if !handled then Fate(0, 1, Failed) else Fate(1, 0, Running)
  }

  function Emits(event: Event): nat {
    Outcome(event).accepted + Outcome(event).refused
  }

  /** What becomes of the events from the i-th on. */
  function FateFrom(events: seq<Event>, i: nat): Fate
    requires i <= |events|
    decreases |events| - i
  {
    if i == |events| then Fate(0, 0, Running)
    else
      var first := Outcome(events[i]);
      if first.exit.Running? then Later(first.accepted, FateFrom(events, i + 1)) else first
  }

  function FateOf(events: seq<Event>): Fate {
    FateFrom(events, 0)
  }

  lemma Extended(all: seq<Block>, log: seq<Block>, log': seq<Block>, chain: Chain, start: nat, n: nat, more: nat)
    requires log == all + BlocksFrom(chain, start, n) && log' == log + BlocksFrom(chain, start + n, more)
    ensures log' == all + BlocksFrom(chain, start, n + more)
  {
    assert BlocksFrom(chain, start, n + more) == BlocksFrom(chain, start, n) + BlocksFrom(chain, start + n, more);
  }

  class FlowBlockSource {
    var currHeight: Option<nat>
    var emitted: seq<Block>

    constructor (startHeight: Option<nat>)
      ensures currHeight == startHeight && emitted == []
    {
      currHeight, emitted := startHeight, [];
    }

    /**
     Over any number of subscription errors and reconnects the handler is given every block from the start
     height on, once and in order; the source stands behind the last block that the handler accepted.
     `latest` is the node's latest height, if it answers.
     */
    method Subscribe(chain: Chain, latest: Option<nat>, subscribed: bool, events: seq<Event>) returns (exit: Exit)
      modifies this
      ensures currHeight.None? <==> old(currHeight).None? && latest.None?
      ensures currHeight.None? ==> exit.Failed? && emitted == old(emitted)
      ensures currHeight.Some? ==>
                var start := if old(currHeight).Some? then old(currHeight.value) else latest.value;
                var fate := if subscribed then FateOf(events) else Fate(0, 0, Failed);
                && exit == fate.exit
                && currHeight == Some(start + fate.accepted)
                && emitted == old(emitted) + BlocksFrom(chain, start, fate.accepted + fate.refused)
      ensures forall k :: 0 <= k < |events| && events[k].ContextDone? ==>
                !exit.Running? && |emitted| <= |old(emitted)| + k
    {
      DoneEndsRun(events);
      if currHeight.None? {
        if latest.None? {
          return Failed;
        }
        currHeight := latest;
      }
      if !subscribed {
        assert BlocksFrom(chain, currHeight.value, 0) == [];
        return Failed;
      }
      exit := Process(chain, events);
    }

    /** The main loop. */
    method Process(chain: Chain, events: seq<Event>) returns (exit: Exit)
      requires currHeight.Some?
      modifies this
      ensures exit == FateOf(events).exit
      ensures currHeight == Some(old(currHeight.value) + FateOf(events).accepted)
      ensures emitted == old(emitted)
                         + BlocksFrom(chain, old(currHeight.value), FateOf(events).accepted + FateOf(events).refused)
    {
      ghost var start := currHeight.value;
      // the height that the subscription delivers next
      var data := currHeight.value;
      var i := 0;
      ghost var accepted: nat := 0;
      while i < |events|
        invariant 0 <= i <= |events|
        invariant currHeight == Some(start + accepted) && data == start + accepted
        invariant emitted == old(emitted) + BlocksFrom(chain, start, accepted)
        invariant FateOf(events) == Later(accepted, FateFrom(events, i))
      {
        var event := events[i];
        if event.ContextDone? {
          return Stopped;
        }
        ghost var before := emitted;
        var ok;
        ok, data := Turn(chain, event, data);
        Extended(old(emitted), before, emitted, chain, start, accepted, Emits(event));
        if !ok {
          return Failed;
        }
        accepted := accepted + Outcome(event).accepted;
        i := i + 1;
      }
      return Running;
    }

    /** One turn of the loop; `next` is what the subscription delivers after it. */
    method Turn(chain: Chain, event: Event, data: nat) returns (ok: bool, next: nat)
      requires currHeight == Some(data) && !event.ContextDone?
      modifies this
      ensures ok <==> Outcome(event).exit.Running?
      ensures currHeight == Some(data + Outcome(event).accepted)
      ensures ok ==> next == data + Outcome(event).accepted
      ensures emitted == old(emitted) + BlocksFrom(chain, data, Emits(event))
    {
      assert BlocksFrom(chain, data, Emits(event)) == if Emits(event) == 1 then [Block(data, chain(data))] else [];
      if event.Broken? {
        ok := Reconnect(chain, event.fetched, event.handled, event.resubscribed);
        next := currHeight.value;
      } else {
        ok := Receive(chain, data, event.fetched, event.handled);
        next := data + 1;
      }
    }

    /** Hands on what the subscription has delivered. */
    method Receive(chain: Chain, height: nat, fetched: bool, handled: bool) returns (ok: bool)
      modifies this
      ensures ok <==> fetched && handled
      ensures currHeight == if ok then Some(height + 1) else old(currHeight)
      ensures emitted == old(emitted) + if fetched then [Block(height, chain(height))] else []
    {
      if !fetched {
        return false;
      }
      emitted := emitted + [Block(height, chain(height))];
      if !handled {
        return false;
      }
      currHeight := Some(height + 1);
      return true;
    }

    /** Reads the block that the subscription did not deliver from the node, then subscribes again. */
    method Reconnect(chain: Chain, fetched: bool, handled: bool, resubscribed: bool) returns (ok: bool)
      requires currHeight.Some?
      modifies this
      ensures ok <==> (fetched ==> handled) && resubscribed
      ensures currHeight == Some(old(currHeight.value) + if fetched && handled then 1 else 0)
      ensures emitted == old(emitted)
                         + if fetched then [Block(old(currHeight.value), chain(old(currHeight.value)))] else []
    {
      if fetched {
        emitted := emitted + [Block(currHeight.value, chain(currHeight.value))];
        if !handled {
          return false;
        }
        currHeight := Some(currHeight.value + 1);
      }
      return resubscribed;
    }
  }

  /**
   A source that is subscribed again after it has failed goes on where it stood: both runs together emit every
   height in order and once, except that a block which the handler refused comes again, once.
   */
  lemma RunsJoin(chain: Chain, start: nat, first: seq<Event>, second: seq<Event>)
    ensures var a, b := FateOf(first), FateOf(second);
            && BlocksFrom(chain, start, a.accepted) + BlocksFrom(chain, start + a.accepted, b.accepted + b.refused)
               == BlocksFrom(chain, start, a.accepted + b.accepted + b.refused)
            && a.refused <= 1 && (a.refused == 1 ==> a.exit.Failed?)
  {
    RefusedAtMostOnce(first, 0);
  }

  /**
   Whatever comes after the context is done does not matter: what is emitted was emitted for the events before, at most
   one block for each of them, and the loop has ended.
   */
  lemma NothingAfterDone(events: seq<Event>, k: nat)
    requires k < |events| && events[k].ContextDone?
    ensures var all, before := FateOf(events), FateOf(events[..k]);
            && all.accepted == before.accepted && all.refused == before.refused
            && all.accepted + all.refused <= k
            && all.exit == (if before.exit.Running? then Stopped else before.exit) && !all.exit.Running?
  {
    DoneEnds(events, 0, k);
  }

  lemma DoneEndsRun(events: seq<Event>)
    ensures forall k :: 0 <= k < |events| && events[k].ContextDone? ==>
              !FateOf(events).exit.Running? && FateOf(events).accepted + FateOf(events).refused <= k
  {
    forall k | 0 <= k < |events| && events[k].ContextDone?
      ensures !FateOf(events).exit.Running? && FateOf(events).accepted + FateOf(events).refused <= k
    {
      NothingAfterDone(events, k);
    }
  }

  lemma {:induction false} DoneEnds(events: seq<Event>, i: nat, k: nat)
    requires i <= k < |events| && events[k].ContextDone?
    ensures var all, before := FateFrom(events, i), FateFrom(events[..k], i);
            && all == before.(exit := if before.exit.Running? then Stopped else before.exit)
            && all.accepted + all.refused <= k - i
    decreases k - i
  {
    if i < k {
      DoneEnds(events, i + 1, k);
    }
  }

  lemma {:induction false} RefusedAtMostOnce(events: seq<Event>, i: nat)
    requires i <= |events|
    ensures FateFrom(events, i).refused <= 1
    ensures FateFrom(events, i).refused == 1 ==> FateFrom(events, i).exit.Failed?
    decreases |events| - i
  {
    if i < |events| {
      RefusedAtMostOnce(events, i + 1);
    }
  }
}
