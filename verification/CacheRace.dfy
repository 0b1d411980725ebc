/**
 A run of the checkout protocol with two requests one after the other. The second one finds the copy of the expired
 session that the first one has replaced, and replaces the new session, too. The user ends up with two open sessions.
 */
module CacheRace {
  import opened Wrappers
  import opened Checkout
  import opened CheckoutRace

  function Over(u: User): Session {
    Session(u, 1, Expired, false, false)
  }

  /** Nothing is locked, and the expired first session is cached for the user. */
  function WithCopy(u: User, row: Row, sessions: map<SessionId, Session>, handlers: map<HandlerId, Handler>, nextId: nat,
                    seen: set<(User, SessionId)>, replaced: seq<(nat, HandlerId)>): State {
    InDb(u, row, sessions, handlers, nextId, seen, replaced).(cache := map[u := Cached(0, Over(u))])
  }

  /** The first session expires, and a handler looks it up. */
  lemma FirstExpires(u: User) returns (steps: seq<Step>, s: State)
    ensures Plays(steps, s)
    ensures s == InDb(u, FIRST, map[0 := Over(u)], map[1 := Handler(u, HasRow(FIRST))], 3, {(u, 0)}, [])
  {
    steps, s := FirstInsert(u);
    var t := s.(sessions := map[0 := Over(u)]);
    steps := Next(steps, s, Expire(0), t);
    s := t.(handlers := map[1 := Handler(u, Started)]);
    steps := Next(steps, t, Begin(1, u), s);
    t := s.(handlers := map[1 := Handler(u, HasRow(FIRST))]);
    steps := Next(steps, s, ReadRow(1), t);
    s := t;
  }

  /** What the handler has retrieved is cached. */
  lemma ExpiredIsCached(u: User) returns (steps: seq<Step>, s: State)
    ensures Plays(steps, s)
    ensures s == WithCopy(u, FIRST, map[0 := Over(u)], map[1 := Handler(u, Resolved(Some(1)))], 3, {(u, 0)}, [])
  {
    steps, s := FirstExpires(u);
    var t := s.(handlers := map[1 := Handler(u, Resolved(Some(1)))]);
    steps := Next(steps, s, LookUp(1), t);
    s := t.(cache := map[u := Cached(0, Over(u))]);
    steps := Next(steps, t, CacheSession(u, 0, Over(u)), s);
  }

  function TwoSessions(u: User): map<SessionId, Session> {
    map[0 := Over(u), 3 := NewOne(u, 4)]
  }

  lemma FirstLocks(u: User) returns (steps: seq<Step>, s: State)
    ensures Plays(steps, s)
    ensures s == WithCopy(u, FIRST, TwoSessions(u), map[1 := Handler(u, InTransaction(3, Some(SECOND)))], 5,
                          {(u, 0)}, []).(locks := map[u := 1])
  {
    steps, s := ExpiredIsCached(u);
    var t := WithCopy(u, FIRST, TwoSessions(u), map[1 := Handler(u, Created(Some(1), 3))], 5, {(u, 0)}, []);
    steps := Next(steps, s, Create(1), t);
    s := t.(locks := map[u := 1], handlers := map[1 := Handler(u, InTransaction(3, Some(SECOND)))]);
    steps := Next(steps, t, LockRow(1), s);
  }

  /** The handler replaces the expired session by a new one and returns that. */
  lemma FirstReplaces(u: User) returns (steps: seq<Step>, s: State)
    ensures Plays(steps, s)
    ensures s == WithCopy(u, SECOND, TwoSessions(u), map[], 5, {(u, 0), (u, 3)}, [(1, 1)])
  {
    steps, s := FirstLocks(u);
    var t := s.(handlers := map[1 := Handler(u, HasAnswer(3, Some(SECOND), 3))]);
    steps := Next(steps, s, ReadAnswer(1), t);
    s := WithCopy(u, SECOND, TwoSessions(u), map[], 5, {(u, 0), (u, 3)}, [(1, 1)]);
    assert t.handlers - {1} == map[];
    steps := Next(steps, t, Commit(1), s);
  }

  /** The next handler reads the new session's row, but finds the old session's copy. */
  lemma SecondLooksUp(u: User) returns (steps: seq<Step>, s: State)
    ensures Plays(steps, s)
    ensures s == WithCopy(u, SECOND, TwoSessions(u), map[2 := Handler(u, Resolved(Some(4)))], 5,
                          {(u, 0), (u, 3)}, [(1, 1)])
  {
    steps, s := FirstReplaces(u);
    var t := s.(handlers := map[2 := Handler(u, Started)]);
    steps := Next(steps, s, Begin(2, u), t);
    s := t.(handlers := map[2 := Handler(u, HasRow(SECOND))]);
    steps := Next(steps, t, ReadRow(2), s);
    t := s.(handlers := map[2 := Handler(u, Resolved(Some(4)))]);
    steps := Next(steps, s, LookUp(2), t);
    s := t;
  }

  lemma SecondLocks(u: User) returns (steps: seq<Step>, s: State)
    ensures Plays(steps, s)
    ensures s == WithCopy(u, SECOND, TwoSessions(u)[5 := NewOne(u, 6)],
                          map[2 := Handler(u, InTransaction(5, Some(Row(2, 6, 5))))], 7,
                          {(u, 0), (u, 3)}, [(1, 1)]).(locks := map[u := 2])
  {
    steps, s := SecondLooksUp(u);
    var t := s.(sessions := TwoSessions(u)[5 := NewOne(u, 6)], nextId := 7,
                handlers := map[2 := Handler(u, Created(Some(4), 5))]);
    steps := Next(steps, s, Create(2), t);
    s := t.(locks := map[u := 2], handlers := map[2 := Handler(u, InTransaction(5, Some(Row(2, 6, 5))))]);
    steps := Next(steps, t, LockRow(2), s);
  }

  /** Two sessions whose URLs were returned to the user are open, and no row was ever deleted. */
  lemma CacheBreaksOneOpenSession(u: User) returns (steps: seq<Step>, s: State)
    ensures Plays(steps, s)
    ensures (u, 3) in s.returned && (u, 5) in s.returned && IsOpen(s, 3) && IsOpen(s, 5)
  {
    steps, s := SecondLocks(u);
    var t := s.(handlers := map[2 := Handler(u, HasAnswer(5, Some(Row(2, 6, 5)), 5))]);
    steps := Next(steps, s, ReadAnswer(2), t);
    s := Do(t, Commit(2));
    steps := Next(steps, t, Commit(2), s);
  }
}
