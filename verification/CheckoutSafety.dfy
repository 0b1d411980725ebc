/** Where the checkout promise can break. */
module CheckoutSafety {
  // The exact condition under which a step of the protocol can lead to two open sessions in a user's hands: a deletion or
  // a lookup that is not harmless can, by steps of one handler alone, and no other step can.

  import opened Wrappers
  import opened Checkout

  /** However the harmless steps go on from here, no user ever holds two open sessions. */
  ghost predicate StaysSafe(s: State) {
    forall steps :: IsRun(s, steps) && AllHarmless(s, steps) ==> AtMostOneOpen(After(s, steps))
  }

  lemma InvStaysSafe(s: State)
    requires Inv(s)
    ensures StaysSafe(s)
  {
    forall steps | IsRun(s, steps) && AllHarmless(s, steps) ensures AtMostOneOpen(After(s, steps)) {
      RunKeepsInv(s, steps);
      InvShowsOne(After(s, steps));
    }
  }

  /** A run of harmless steps that ends in a state. */
  ghost predicate Leads(s: State, steps: seq<Step>, r: State)
    decreases |steps|
  {
    if steps == [] then s == r
    else Enabled(s, steps[0]) && Harmless(s, steps[0]) && Leads(Do(s, steps[0]), steps[1..], r)
  }

  lemma {:induction false} LeadsIsRun(s: State, steps: seq<Step>, r: State)
    requires Leads(s, steps, r)
    ensures IsRun(s, steps) && AllHarmless(s, steps) && After(s, steps) == r
    decreases |steps|
  {
    if steps != [] {
      LeadsIsRun(Do(s, steps[0]), steps[1..], r);
    }
  }

  lemma First(s: State, step: Step, steps: seq<Step>, r: State)
    requires Enabled(s, step) && Harmless(s, step) && Leads(Do(s, step), steps, r)
    ensures Leads(s, [step] + steps, r)
  {
    assert ([step] + steps)[1..] == steps;
  }

  ghost predicate TwoOpen(s: State, u: User, x: SessionId, y: SessionId) {
    x != y && (u, x) in s.returned && (u, y) in s.returned && IsOpen(s, x) && IsOpen(s, y)
  }

  lemma NotSafe(s: State, steps: seq<Step>, r: State, u: User, x: SessionId, y: SessionId)
    requires Leads(s, steps, r) && TwoOpen(r, u, x, y)
    ensures !StaysSafe(s)
  {
    LeadsIsRun(s, steps, r);
    assert !AtMostOneOpen(r);
  }

  // ----- A handler goes through with a new session -----

  /** A session that was returned to the user is open, and a handler has just written a row with another one. */
  ghost predicate AboutToAnswer(s: State, h: HandlerId, u: User, x: SessionId, y: SessionId) {
    && x != y && (u, x) in s.returned && IsOpen(s, x) && IsOpen(s, y)
    && h in s.handlers && s.handlers[h].user == u
    && s.handlers[h].progress.InTransaction? && s.handlers[h].progress.session == y
    && s.handlers[h].progress.write.Some? && s.handlers[h].progress.write.value.session == y
  }

  lemma Answers(s: State, h: HandlerId, u: User, x: SessionId, y: SessionId) returns (steps: seq<Step>, r: State)
    requires AboutToAnswer(s, h, u, x, y)
    ensures Leads(s, steps, r) && TwoOpen(r, u, x, y)
  {
    var t := Do(s, ReadAnswer(h));
    r := Do(t, Commit(h));
    steps := [Commit(h)];
    First(t, Commit(h), [], r);
    First(s, ReadAnswer(h), steps, r);
    steps := [ReadAnswer(h)] + steps;
  }

  /** A session that was returned to the user is open, and a handler is about to create another one. */
  ghost predicate AboutToCreate(s: State, h: HandlerId, u: User, x: SessionId, ref: Option<nat>) {
    && x < s.nextId && (u, x) in s.returned && IsOpen(s, x) && u !in s.locks
    && h in s.handlers && s.handlers[h] == Handler(u, Resolved(ref))
    && match ref case None => u !in s.rows case Some(n) => u in s.rows && s.rows[u].ref == n
  }

  /** The new session goes into the row, whether there is none or the handler knows its reference. */
  lemma NewRowWritten(s: State, h: HandlerId, u: User, x: SessionId, ref: Option<nat>) returns (steps: seq<Step>, r: State)
    requires AboutToCreate(s, h, u, x, ref)
    ensures Leads(s, steps, r) && AboutToAnswer(r, h, u, x, s.nextId)
  {
    var t := Do(s, Create(h));
    var step := if ref.Some? then LockRow(h) else Insert(h);
    r := Do(t, step);
    First(t, step, [], r);
    First(s, Create(h), [step], r);
    steps := [Create(h)] + [step];
  }

  lemma {:induction false} Joined(s: State, a: seq<Step>, m: State, b: seq<Step>, r: State)
    requires Leads(s, a, m) && Leads(m, b, r)
    ensures Leads(s, a + b, r)
    decreases |a|
  {
    if a == [] {
      assert a + b == b;
    } else {
      Joined(Do(s, a[0]), a[1..], m, b, r);
      assert (a + b)[1..] == a[1..] + b;
    }
  }

  lemma CreateBreaks(s: State, h: HandlerId, u: User, x: SessionId, ref: Option<nat>) returns (steps: seq<Step>, r: State)
    requires AboutToCreate(s, h, u, x, ref)
    ensures Leads(s, steps, r) && TwoOpen(r, u, x, s.nextId)
  {
    var a, m := NewRowWritten(s, h, u, x, ref);
    var b;
    b, r := Answers(m, h, u, x, s.nextId);
    Joined(s, a, m, b, r);
    steps := a + b;
  }

  // ----- After a step that is not harmless -----

  lemma AfterDeleteRow(s: State, h: HandlerId)
    requires Inv(s) && Enabled(s, DeleteRow(h)) && !Harmless(s, DeleteRow(h))
    ensures !StaysSafe(Do(s, DeleteRow(h)))
  {
    var r, u := Do(s, DeleteRow(h)), s.handlers[h].user;
    var x := s.rows[u].session;
    var steps, end := CreateBreaks(r, h, u, x, None);
    NotSafe(r, steps, end, u, x, r.nextId);
  }

  lemma Unused(ids: set<nat>) returns (n: nat)
    ensures forall id :: id in ids ==> id < n
  {
    n := 0;
    if ids != {} {
      var id :| id in ids;
      var rest := Unused(ids - {id});
      n := if id < rest then rest else id + 1;
      assert forall k :: k in ids ==> k == id || k in ids - {id};
    }
  }

  /** With no row left, a handler that starts now creates another session. */
  lemma RowGoneBreaks(s: State, u: User, x: SessionId) returns (steps: seq<Step>, r: State)
    requires u !in s.rows && u !in s.locks && x < s.nextId && (u, x) in s.returned && IsOpen(s, x)
    ensures Leads(s, steps, r) && TwoOpen(r, u, x, s.nextId)
  {
    var h := Unused(s.handlers.Keys);
    assert h !in s.handlers;
    var t := Do(s, Begin(h, u));
    var m := Do(t, ReadRow(h));
    steps, r := CreateBreaks(m, h, u, x, None);
    First(t, ReadRow(h), steps, r);
    First(s, Begin(h, u), [ReadRow(h)] + steps, r);
    steps := [Begin(h, u)] + ([ReadRow(h)] + steps);
  }

  lemma AfterEvent(s: State, u: User)
    requires Inv(s) && Enabled(s, EventDeletesRow(u)) && !Harmless(s, EventDeletesRow(u))
    ensures !StaysSafe(Do(s, EventDeletesRow(u)))
  {
    var r, x := Do(s, EventDeletesRow(u)), s.rows[u].session;
    var steps, end := RowGoneBreaks(r, u, x);
    NotSafe(r, steps, end, u, x, r.nextId);
  }

  /** Whoever holds a row's lock replaces a session that is over. */
  lemma LockedRowIsOver(s: State, u: User)
    requires Inv(s) && u in s.rows && u in s.locks
    ensures !IsOpen(s, s.rows[u].session)
  {
    var g := s.locks[u];
    assert HandlerOk(s, g, s.handlers[g].user, s.handlers[g].progress);
  }

  lemma AfterLookUp(s: State, h: HandlerId)
    requires Inv(s) && Enabled(s, LookUp(h)) && !Harmless(s, LookUp(h))
    ensures !StaysSafe(Do(s, LookUp(h)))
  {
    var r, u, row := Do(s, LookUp(h)), s.handlers[h].user, s.handlers[h].progress.row;
    assert HandlerOk(s, h, u, s.handlers[h].progress);
    assert (u, row.session) in s.stored;
    if u in s.locks {
      LockedRowIsOver(s, u);
    }
    var steps, end := CreateBreaks(r, h, u, row.session, Some(row.ref));
    NotSafe(r, steps, end, u, row.session, r.nextId);
  }

  /**
   From every state that the invariant admits and for every step: no harmless continuation shows a user two open
   sessions if and only if the step is harmless. So the two deletions and the cached lookup are the only places where
   the promise breaks, and they break it exactly when the session of the row is open.
   */
  lemma HarmlessIff(s: State, step: Step)
    requires Inv(s) && Enabled(s, step)
    ensures StaysSafe(Do(s, step)) <==> Harmless(s, step)
  {
    if Harmless(s, step) {
      StepKeepsInv(s, step);
      InvStaysSafe(Do(s, step));
    } else {
      match step
      case DeleteRow(h) => AfterDeleteRow(s, h);
      case EventDeletesRow(u) => AfterEvent(s, u);
      case LookUp(h) => AfterLookUp(s, h);
    }
  }
}
