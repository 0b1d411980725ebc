/**
 A run of the checkout protocol in which a handler deletes, by the id it has read before, a row whose session has
 been replaced in the meantime. The user ends up with two open sessions.
 */
module CheckoutRace {
  import opened Wrappers
  import opened Checkout

  ghost predicate Plays(steps: seq<Step>, s: State) {
    IsRun(Init(), steps) && After(Init(), steps) == s
  }

  lemma {:induction false} Extend(s: State, steps: seq<Step>, step: Step)
    requires IsRun(s, steps) && Enabled(After(s, steps), step)
    ensures IsRun(s, steps + [step]) && After(s, steps + [step]) == Do(After(s, steps), step)
    decreases |steps|
  {
    if steps == [] {
      assert [step][1..] == [];
    } else {
      Extend(Do(s, steps[0]), steps[1..], step);
      assert (steps + [step])[1..] == steps[1..] + [step];
    }
  }

  lemma Next(steps: seq<Step>, s: State, step: Step, r: State) returns (steps': seq<Step>)
    requires Plays(steps, s) && Enabled(s, step) && r == Do(s, step)
    ensures Plays(steps', r)
  {
    Extend(Init(), steps, step);
    steps' := steps + [step];
  }

  const FIRST: Row := Row(2, 1, 0)
  const SECOND: Row := Row(2, 4, 3)

  function Canceled(u: User): Session {
    Session(u, 1, Complete, true, false)
  }

  function NewOne(u: User, ref: nat): Session {
    Session(u, ref, Open, false, false)
  }

  function InDb(u: User, row: Row, sessions: map<SessionId, Session>, handlers: map<HandlerId, Handler>, nextId: nat,
                seen: set<(User, SessionId)>, replaced: seq<(nat, HandlerId)>): State {
    State(map[u := row], map[], sessions, map[], handlers, nextId, seen, seen, replaced)
  }

  /** The user checks out, pays and cancels. */
  lemma FirstCheckout(u: User) returns (steps: seq<Step>, s: State)
    ensures Plays(steps, s) && s == InDb(u, FIRST, map[0 := Canceled(u)], map[], 3, {(u, 0)}, [])
  {
    steps, s := FirstInsert(u);
    var x := s.sessions[0].(status := Complete);
    var t := s.(sessions := map[0 := x]);
    steps := Next(steps, s, Pay(0), t);
    s := t.(sessions := map[0 := Canceled(u)]);
    steps := Next(steps, t, Cancel(0), s);
  }

  lemma FirstInsert(u: User) returns (steps: seq<Step>, s: State)
    ensures Plays(steps, s) && s == InDb(u, FIRST, map[0 := NewOne(u, 1)], map[], 3, {(u, 0)}, [])
  {
    steps, s := FirstSession(u);
    var t := s.(locks := map[u := 0], nextId := 3, handlers := map[0 := Handler(u, InTransaction(0, Some(FIRST)))]);
    steps := Next(steps, s, Insert(0), t);
    s := t.(handlers := map[0 := Handler(u, HasAnswer(0, Some(FIRST), 0))]);
    steps := Next(steps, t, ReadAnswer(0), s);
    t := InDb(u, FIRST, map[0 := NewOne(u, 1)], map[], 3, {(u, 0)}, []);
    steps := Next(steps, s, Commit(0), t);
    s := t;
  }

  lemma FirstSession(u: User) returns (steps: seq<Step>, s: State)
    ensures Plays(steps, s)
    ensures s == Init().(sessions := map[0 := NewOne(u, 1)], nextId := 2, handlers := map[0 := Handler(u, Created(None, 0))])
  {
    steps, s := [], Init();
    var t := s.(handlers := map[0 := Handler(u, Started)]);
    steps := Next(steps, s, Begin(0, u), t);
    s := t.(handlers := map[0 := Handler(u, Resolved(None))]);
    steps := Next(steps, t, ReadRow(0), s);
    t := s.(sessions := map[0 := NewOne(u, 1)], nextId := 2, handlers := map[0 := Handler(u, Created(None, 0))]);
    steps := Next(steps, s, Create(0), t);
    s := t;
  }

  /** Handler 1 waits with the row it has read, handler 2 is at work. */
  function Two(u: User, p: Progress): map<HandlerId, Handler> {
    map[1 := Handler(u, HasRow(FIRST)), 2 := Handler(u, p)]
  }

  /** Handler 1 reads the row; then handler 2 replaces the canceled session and returns the new one. */
  lemma Renewal(u: User) returns (steps: seq<Step>, s: State)
    ensures Plays(steps, s)
    ensures s == InDb(u, SECOND, map[0 := Canceled(u), 3 := NewOne(u, 4)], map[1 := Handler(u, HasRow(FIRST))], 5,
                      {(u, 0), (u, 3)}, [(1, 2)])
  {
    steps, s := RowLocked(u);
    var t := s.(handlers := Two(u, HasAnswer(3, Some(SECOND), 3)));
    steps := Next(steps, s, ReadAnswer(2), t);
    s := InDb(u, SECOND, map[0 := Canceled(u), 3 := NewOne(u, 4)], map[1 := Handler(u, HasRow(FIRST))], 5,
              {(u, 0), (u, 3)}, [(1, 2)]);
    assert t.handlers - {2} == s.handlers;
    steps := Next(steps, t, Commit(2), s);
  }

  lemma RowLocked(u: User) returns (steps: seq<Step>, s: State)
    ensures Plays(steps, s)
    ensures s == InDb(u, FIRST, map[0 := Canceled(u), 3 := NewOne(u, 4)], Two(u, InTransaction(3, Some(SECOND))), 5,
                      {(u, 0)}, []).(locks := map[u := 2])
  {
    var t;
    steps, t := NewSessionForOldRow(u);
    s := t.(locks := map[u := 2], handlers := Two(u, InTransaction(3, Some(SECOND))));
    steps := Next(steps, t, LockRow(2), s);
  }

  lemma NewSessionForOldRow(u: User) returns (steps: seq<Step>, s: State)
    ensures Plays(steps, s)
    ensures s == InDb(u, FIRST, map[0 := Canceled(u), 3 := NewOne(u, 4)], Two(u, Created(Some(1), 3)), 5, {(u, 0)}, [])
  {
    steps, s := BothRead(u);
    var t := s.(handlers := Two(u, Resolved(Some(1))));
    steps := Next(steps, s, LookUp(2), t);
    s := t.(sessions := map[0 := Canceled(u), 3 := NewOne(u, 4)], nextId := 5, handlers := Two(u, Created(Some(1), 3)));
    steps := Next(steps, t, Create(2), s);
  }

  lemma BothRead(u: User) returns (steps: seq<Step>, s: State)
    ensures Plays(steps, s)
    ensures s == InDb(u, FIRST, map[0 := Canceled(u)], Two(u, HasRow(FIRST)), 3, {(u, 0)}, [])
  {
    steps, s := FirstCheckout(u);
    var t := s.(handlers := map[1 := Handler(u, Started)]);
    steps := Next(steps, s, Begin(1, u), t);
    s := t.(handlers := map[1 := Handler(u, HasRow(FIRST))]);
    steps := Next(steps, t, ReadRow(1), s);
    t := s.(handlers := Two(u, Started));
    steps := Next(steps, s, Begin(2, u), t);
    s := t.(handlers := Two(u, HasRow(FIRST)));
    steps := Next(steps, t, ReadRow(2), s);
  }

  /** The customer is deleted, handler 1 finds that out, and deletes the row with the new session. */
  lemma Deletion(u: User) returns (steps: seq<Step>, s: State, sessions: map<SessionId, Session>)
    ensures Plays(steps, s)
    ensures sessions == map[0 := Canceled(u).(customerDeleted := true), 3 := NewOne(u, 4)]
    ensures s == State(map[], map[], sessions, map[], map[1 := Handler(u, Resolved(None))], 5,
                       {(u, 0), (u, 3)}, {(u, 0), (u, 3)}, [(1, 2)])
  {
    steps, s := Renewal(u);
    sessions := map[0 := Canceled(u).(customerDeleted := true), 3 := NewOne(u, 4)];
    var t := s.(sessions := sessions);
    steps := Next(steps, s, DeleteCustomer(0), t);
    s := t.(handlers := map[1 := Handler(u, Deleting(FIRST))]);
    steps := Next(steps, t, LookUp(1), s);
    t := s.(handlers := map[1 := Handler(u, Resolved(None))], rows := map[]);
    steps := Next(steps, s, DeleteRow(1), t);
    s := t;
  }

  /** Two sessions whose URLs were returned to the user are open. */
  lemma DeletionBreaksOneOpenSession(u: User) returns (steps: seq<Step>, s: State)
    ensures Plays(steps, s)
    ensures (u, 3) in s.returned && (u, 5) in s.returned && IsOpen(s, 3) && IsOpen(s, 5)
  {
    var sessions;
    steps, s, sessions := Deletion(u);
    var t := s.(sessions := sessions[5 := NewOne(u, 6)], nextId := 7, handlers := map[1 := Handler(u, Created(None, 5))]);
    steps := Next(steps, s, Create(1), t);
    s := Do(t, Insert(1));
    steps := Next(steps, t, Insert(1), s);
    t := Do(s, ReadAnswer(1));
    steps := Next(steps, s, ReadAnswer(1), t);
    assert t.handlers[1] == Handler(u, HasAnswer(5, Some(Row(7, 6, 5)), 5));
    s := Do(t, Commit(1));
    steps := Next(steps, t, Commit(1), s);
  }
}
