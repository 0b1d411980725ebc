/** When a checkout session is renewed. */
module CheckoutRenewals {
  // A lookup says exactly what becomes of a session, and as long as lookups go by copies of the row's own session, no
  // session is replaced but one that has expired or whose subscription is canceled.

  import opened Wrappers
  import opened Checkout
  import W = CheckoutSafety

  /** The session has expired, or it was paid and the subscription is canceled since. */
  predicate Over(session: Session) {
    session.status.Expired? || (session.status.Complete? && session.canceled)
  }

  // ----- One lookup -----

  /** The lookup hands out the row's URL while the session it goes by is open, and changes nothing else. */
  lemma OpenIsReturned(s: State, h: HandlerId)
    requires Enabled(s, LookUp(h)) && Found(s, h).status.Open?
    ensures var r := Do(s, LookUp(h));
            && r.returned == s.returned + {(s.handlers[h].user, s.handlers[h].progress.row.session)}
            && h !in r.handlers && r.rows == s.rows && r.sessions == s.sessions && r.stored == s.stored
  {
  }

  /** A session with an active subscription ends the handler: no row, session, lock or URL changes. */
  lemma ActiveStays(s: State, h: HandlerId)
    requires LocksOk(s) && Enabled(s, LookUp(h))
    requires Found(s, h).status.Complete? && !Found(s, h).canceled && !Found(s, h).customerDeleted
    ensures var r := Do(s, LookUp(h));
            && h !in r.handlers && r.handlers == s.handlers - {h}
            && r.rows == s.rows && r.sessions == s.sessions && r.locks == s.locks
            && r.returned == s.returned && r.stored == s.stored && r.replaced == s.replaced
  {
    var r := Do(s, LookUp(h));
    assert forall u :: u in s.locks <==> u in r.locks;
  }

  /** A session that is over leads to a new one, which will replace it; with the customer deleted, the row goes first. */
  lemma OverGoesOn(s: State, h: HandlerId)
    requires Enabled(s, LookUp(h)) && (Over(Found(s, h)) || (Found(s, h).status.Complete? && Found(s, h).customerDeleted))
    ensures var r, row := Do(s, LookUp(h)), s.handlers[h].progress.row;
            && r == s.(handlers := r.handlers) && h in r.handlers && r.handlers[h].user == s.handlers[h].user
            && r.handlers[h].progress == (if Found(s, h).status.Complete? && Found(s, h).customerDeleted then Deleting(row)
                                          else Resolved(Some(row.ref)))
            && forall g :: g != h ==> (g in r.handlers <==> g in s.handlers) && (g in s.handlers ==> r.handlers[g] == s.handlers[g])
  {
  }

  // ----- What is replaced is over -----

  /** The session of the reference is over, and there is one. */
  ghost predicate RefIsOver(s: State, ref: nat) {
    exists x :: x in s.sessions && s.sessions[x].ref == ref && Over(s.sessions[x])
  }

  ghost predicate RowMatches(s: State, row: Row) {
    row.session in s.sessions && s.sessions[row.session].ref == row.ref
  }

  ghost predicate WriteFine(s: State, h: HandlerId, u: User, write: Option<Row>) {
    write.Some? ==> u in s.locks && s.locks[u] == h && RowMatches(s, write.value)
                    && (u in s.rows ==> RefIsOver(s, s.rows[u].ref))
  }

  ghost predicate HandlerFine(s: State, h: HandlerId, u: User, p: Progress) {
    match p
    case Started => true
    case HasRow(row) => RowMatches(s, row)
    case Deleting(row) => true
    case Resolved(ref) => ref.Some? ==> RefIsOver(s, ref.value)
    case Created(ref, x) => x in s.sessions && (ref.Some? ==> RefIsOver(s, ref.value))
    case InTransaction(_, write) => WriteFine(s, h, u, write)
    case HasAnswer(_, write, _) => WriteFine(s, h, u, write)
  }

  ghost predicate Fine(s: State) {
    && SessionsOk(s) && CacheInv(s)
    && (forall u :: u in s.rows ==> RowMatches(s, s.rows[u]))
    && (forall h :: h in s.handlers ==> HandlerFine(s, h, s.handlers[h].user, s.handlers[h].progress))
    && (forall i :: 0 <= i < |s.replaced| ==> RefIsOver(s, s.replaced[i].0))
  }

  /** The lookup goes by Stripe's answer, or by a copy of the session that is in the row it has read. */
  ghost predicate ByOwnCopy(s: State, step: Step) {
    step.LookUp? && Enabled(s, step) && s.handlers[step.h].user in s.cache ==>
      s.cache[s.handlers[step.h].user].session == s.handlers[step.h].progress.row.session
  }

  lemma OverStays(s: State, r: State, ref: nat)
    requires OnlyAge(s, r) && RefIsOver(s, ref)
    ensures RefIsOver(r, ref)
  {
    var x :| x in s.sessions && s.sessions[x].ref == ref && Over(s.sessions[x]);
    assert x in r.sessions && r.sessions[x].ref == ref && Over(r.sessions[x]);
  }

  lemma MatchStays(s: State, r: State, row: Row)
    requires OnlyAge(s, r) && RowMatches(s, row)
    ensures RowMatches(r, row)
  {
  }

  lemma ReplacedStays(s: State, r: State)
    requires OnlyAge(s, r) && forall i :: 0 <= i < |s.replaced| ==> RefIsOver(s, s.replaced[i].0)
    ensures forall i :: 0 <= i < |s.replaced| ==> RefIsOver(r, s.replaced[i].0)
  {
    forall i | 0 <= i < |s.replaced| ensures RefIsOver(r, s.replaced[i].0) {
      OverStays(s, r, s.replaced[i].0);
    }
  }

  /** A handler that does not move stays fine while the rows it has locked stay. */
  lemma HandlerStays(s: State, r: State, h: HandlerId, u: User, p: Progress)
    requires OnlyAge(s, r) && HandlerFine(s, h, u, p)
    requires u in s.locks && s.locks[u] == h ==> u in r.locks && r.locks[u] == h
    requires u in s.locks && s.locks[u] == h && u in r.rows ==> u in s.rows && r.rows[u] == s.rows[u]
    ensures HandlerFine(r, h, u, p)
  {
    match p
    case Started =>
    case HasRow(row) => MatchStays(s, r, row);
    case Deleting(row) =>
    case Resolved(ref) => if ref.Some? { OverStays(s, r, ref.value); }
    case Created(ref, x) => if ref.Some? { OverStays(s, r, ref.value); }
    case InTransaction(_, write) => WriteStays(s, r, h, u, write);
    case HasAnswer(_, write, _) => WriteStays(s, r, h, u, write);
  }

  lemma WriteStays(s: State, r: State, h: HandlerId, u: User, write: Option<Row>)
    requires OnlyAge(s, r) && WriteFine(s, h, u, write)
    requires u in s.locks && s.locks[u] == h ==> u in r.locks && r.locks[u] == h
    requires u in s.locks && s.locks[u] == h && u in r.rows ==> u in s.rows && r.rows[u] == s.rows[u]
    ensures WriteFine(r, h, u, write)
  {
    if write.Some? {
      MatchStays(s, r, write.value);
      if u in r.rows {
        OverStays(s, r, s.rows[u].ref);
      }
    }
  }

  predicate HasActor(step: Step) {
    step.Begin? || step.ReadRow? || step.LookUp? || step.DeleteRow? || step.Create? || step.LockRow? || step.Insert?
    || step.ReadAnswer? || step.Commit? || step.Abort?
  }

  lemma SessionsStayOk(s: State, step: Step)
    requires SessionsOk(s) && Enabled(s, step)
    ensures SessionsOk(Do(s, step))
  {
    if !step.Create? && !OfStripe(step) {
      IdsGrow(s, step);
      if !step.CacheSession? && !step.ForgetCached? {
        OtherStepsKeepBoth(s, step);
      }
    }
  }

  lemma IdsGrow(s: State, step: Step)
    requires Enabled(s, step)
    ensures Do(s, step).nextId >= s.nextId
  {
  }

  lemma LocksStay(s: State, step: Step, g: HandlerId, u: User)
    requires Enabled(s, step) && u in s.locks && s.locks[u] == g && (HasActor(step) ==> step.h != g)
    ensures u in Do(s, step).locks && Do(s, step).locks[u] == g
  {
  }

  /** What a handler has locked is its own: nobody else changes that row or takes the lock. */
  lemma LockedStays(s: State, step: Step, g: HandlerId, u: User)
    requires Fine(s) && Enabled(s, step) && u in s.locks && s.locks[u] == g && (HasActor(step) ==> step.h != g)
    ensures var r := Do(s, step);
            u in r.locks && r.locks[u] == g && (u in r.rows ==> u in s.rows && r.rows[u] == s.rows[u])
  {
    LocksStay(s, step, g, u);
    if step.Commit? {
      assert HandlerFine(s, step.h, s.handlers[step.h].user, s.handlers[step.h].progress);
    } else {
      RowsOnlyLeave(s, step);
    }
  }

  lemma NobodyMoves(s: State, step: Step)
    requires Enabled(s, step) && !HasActor(step)
    ensures Do(s, step).handlers == s.handlers
  {
  }

  lemma ActorEnds(s: State, step: Step, g: HandlerId)
    requires Enabled(s, step) && (step.ReadAnswer? || step.Commit? || step.Abort? || step.LookUp?) && step.h != g
    ensures g in Do(s, step).handlers ==> g in s.handlers && Do(s, step).handlers[g] == s.handlers[g]
  {
  }

  lemma ActorGoesOn(s: State, step: Step, g: HandlerId)
    requires Enabled(s, step)
    requires step.Begin? || step.ReadRow? || step.DeleteRow? || step.Create? || step.LockRow? || step.Insert?
    requires step.h != g
    ensures g in Do(s, step).handlers ==> g in s.handlers && Do(s, step).handlers[g] == s.handlers[g]
  {
  }

  lemma OthersUnmoved(s: State, step: Step, g: HandlerId)
    requires Enabled(s, step) && (HasActor(step) ==> step.h != g)
    ensures g in Do(s, step).handlers ==> g in s.handlers && Do(s, step).handlers[g] == s.handlers[g]
  {
    if !HasActor(step) {
      NobodyMoves(s, step);
    } else if step.ReadAnswer? || step.Commit? || step.Abort? || step.LookUp? {
      ActorEnds(s, step, g);
    } else {
      ActorGoesOn(s, step, g);
    }
  }

  lemma OtherStaysFine(s: State, step: Step, g: HandlerId)
    requires Fine(s) && Enabled(s, step) && g in Do(s, step).handlers && (HasActor(step) ==> step.h != g)
    ensures HandlerFine(Do(s, step), g, Do(s, step).handlers[g].user, Do(s, step).handlers[g].progress)
  {
    OthersUnmoved(s, step, g);
    SessionsOnlyAge(s, step);
    var u := s.handlers[g].user;
    if u in s.locks && s.locks[u] == g {
      LockedStays(s, step, g, u);
    }
    HandlerStays(s, Do(s, step), g, u, s.handlers[g].progress);
  }

  lemma LookUpFine(s: State, h: HandlerId)
    requires Fine(s) && Enabled(s, LookUp(h)) && ByOwnCopy(s, LookUp(h)) && h in Do(s, LookUp(h)).handlers
    ensures var r := Do(s, LookUp(h)); HandlerFine(r, h, r.handlers[h].user, r.handlers[h].progress)
  {
    var u, row := s.handlers[h].user, s.handlers[h].progress.row;
    assert HandlerFine(s, h, u, s.handlers[h].progress);
    if u in s.cache {
      assert CopyOk(s, u, s.cache[u]);
    }
    var r := Do(s, LookUp(h));
    if r.handlers[h].progress.Resolved? {
      assert Over(s.sessions[row.session]);
      assert RefIsOver(r, row.ref);
    }
  }

  lemma CreateFine(s: State, h: HandlerId)
    requires Fine(s) && Enabled(s, Create(h))
    ensures var r := Do(s, Create(h)); HandlerFine(r, h, r.handlers[h].user, r.handlers[h].progress)
  {
    assert HandlerFine(s, h, s.handlers[h].user, s.handlers[h].progress);
    SessionsOnlyAge(s, Create(h));
    var ref := s.handlers[h].progress.ref;
    if ref.Some? {
      OverStays(s, Do(s, Create(h)), ref.value);
    }
  }

  lemma LockFine(s: State, h: HandlerId)
    requires Fine(s) && Enabled(s, LockRow(h))
    ensures var r := Do(s, LockRow(h)); HandlerFine(r, h, r.handlers[h].user, r.handlers[h].progress)
  {
    var u := s.handlers[h].user;
    assert HandlerFine(s, h, u, s.handlers[h].progress);
    SessionsOnlyAge(s, LockRow(h));
    OverStays(s, Do(s, LockRow(h)), s.handlers[h].progress.ref.value);
  }

  lemma InsertFine(s: State, h: HandlerId)
    requires Fine(s) && Enabled(s, Insert(h))
    ensures var r := Do(s, Insert(h)); HandlerFine(r, h, r.handlers[h].user, r.handlers[h].progress)
  {
    assert HandlerFine(s, h, s.handlers[h].user, s.handlers[h].progress);
  }

  lemma AnswerFine(s: State, h: HandlerId)
    requires Fine(s) && Enabled(s, ReadAnswer(h)) && h in Do(s, ReadAnswer(h)).handlers
    ensures var r := Do(s, ReadAnswer(h)); HandlerFine(r, h, r.handlers[h].user, r.handlers[h].progress)
  {
    var u, write := s.handlers[h].user, s.handlers[h].progress.write;
    assert HandlerFine(s, h, u, s.handlers[h].progress);
    SessionsOnlyAge(s, ReadAnswer(h));
    WriteStays(s, Do(s, ReadAnswer(h)), h, u, write);
  }

  lemma ActorFine(s: State, step: Step)
    requires Fine(s) && Enabled(s, step) && ByOwnCopy(s, step) && HasActor(step) && step.h in Do(s, step).handlers
    ensures var r, h := Do(s, step), step.h; HandlerFine(r, h, r.handlers[h].user, r.handlers[h].progress)
  {
    if step.LookUp? {
      LookUpFine(s, step.h);
    } else if step.Create? {
      CreateFine(s, step.h);
    } else if step.LockRow? {
      LockFine(s, step.h);
    } else if step.Insert? {
      InsertFine(s, step.h);
    } else if step.ReadAnswer? {
      AnswerFine(s, step.h);
    }
  }

  lemma RowsFine(s: State, step: Step)
    requires Fine(s) && Enabled(s, step)
    ensures forall u :: u in Do(s, step).rows ==> RowMatches(Do(s, step), Do(s, step).rows[u])
  {
    var r := Do(s, step);
    SessionsOnlyAge(s, step);
    forall u | u in r.rows ensures RowMatches(r, r.rows[u]) {
      if step.Commit? {
        assert HandlerFine(s, step.h, s.handlers[step.h].user, s.handlers[step.h].progress);
      } else {
        RowsOnlyLeave(s, step);
        MatchStays(s, r, s.rows[u]);
      }
    }
  }

  lemma RowsOnlyLeave(s: State, step: Step)
    requires Enabled(s, step) && !step.Commit?
    ensures forall u :: u in Do(s, step).rows ==> u in s.rows && Do(s, step).rows[u] == s.rows[u]
    ensures Do(s, step).replaced == s.replaced
  {
  }

  lemma ReplacedFine(s: State, step: Step)
    requires Fine(s) && Enabled(s, step)
    ensures var r := Do(s, step); forall i :: 0 <= i < |r.replaced| ==> RefIsOver(r, r.replaced[i].0)
  {
    var r := Do(s, step);
    SessionsOnlyAge(s, step);
    ReplacedStays(s, r);
    if step.Commit? {
      var u := s.handlers[step.h].user;
      assert HandlerFine(s, step.h, u, s.handlers[step.h].progress);
      if u in s.rows && s.handlers[step.h].progress.write.Some? {
        OverStays(s, r, s.rows[u].ref);
      }
    } else {
      RowsOnlyLeave(s, step);
    }
  }

  lemma StepKeepsFine(s: State, step: Step)
    requires Fine(s) && Enabled(s, step) && ByOwnCopy(s, step)
    ensures Fine(Do(s, step))
  {
    var r := Do(s, step);
    SessionsStayOk(s, step);
    StepKeepsCacheInv(s, step);
    RowsFine(s, step);
    ReplacedFine(s, step);
    forall g | g in r.handlers ensures HandlerFine(r, g, r.handlers[g].user, r.handlers[g].progress) {
      if HasActor(step) && step.h == g {
        ActorFine(s, step);
      } else {
        OtherStaysFine(s, step, g);
      }
    }
  }

  ghost predicate AllByOwnCopy(s: State, steps: seq<Step>)
    requires IsRun(s, steps)
    decreases |steps|
  {
    steps == [] || (ByOwnCopy(s, steps[0]) && AllByOwnCopy(Do(s, steps[0]), steps[1..]))
  }

  lemma {:induction false} RunKeepsFine(s: State, steps: seq<Step>)
    requires Fine(s) && IsRun(s, steps) && AllByOwnCopy(s, steps)
    ensures Fine(After(s, steps))
    decreases |steps|
  {
    if steps != [] {
      StepKeepsFine(s, steps[0]);
      RunKeepsFine(Do(s, steps[0]), steps[1..]);
    }
  }

  /**
   In every run whose lookups go by Stripe's answers or copies of the row's own session, with deletions and aborts
   anywhere: whatever reference was replaced belongs to a session that has expired, or that was paid and whose
   subscription is canceled. Nobody with an active subscription is led to a second one.
   */
  lemma OnlyOverIsReplaced(steps: seq<Step>, i: nat)
    requires IsRun(Init(), steps) && AllByOwnCopy(Init(), steps) && i < |After(Init(), steps).replaced|
    ensures var s := After(Init(), steps);
            exists x :: x in s.sessions && s.sessions[x].ref == s.replaced[i].0
                        && (s.sessions[x].status.Expired? || (s.sessions[x].status.Complete? && s.sessions[x].canceled))
  {
    RunKeepsFine(Init(), steps);
    var s := After(Init(), steps);
    assert RefIsOver(s, s.replaced[i].0);
    var x :| x in s.sessions && s.sessions[x].ref == s.replaced[i].0 && Over(s.sessions[x]);
  }

  /** After every such run: a commit that replaces a row replaces one whose session is over. */
  lemma CommitReplacesOver(steps: seq<Step>, h: HandlerId)
    requires IsRun(Init(), steps) && AllByOwnCopy(Init(), steps)
    requires var s := After(Init(), steps);
             && Enabled(s, Commit(h)) && s.handlers[h].user in s.rows
             && Do(s, Commit(h)).rows != s.rows
    ensures var s := After(Init(), steps);
            var x := s.rows[s.handlers[h].user].session;
            x in s.sessions && Over(s.sessions[x])
  {
    RunKeepsFine(Init(), steps);
    var s := After(Init(), steps);
    var u := s.handlers[h].user;
    assert HandlerFine(s, h, u, s.handlers[h].progress);
    assert RowMatches(s, s.rows[u]);
    var x :| x in s.sessions && s.sessions[x].ref == s.rows[u].ref && Over(s.sessions[x]);
  }

  // ----- One request on its own -----

  /** The user's row has an open session whose URL the user has. */
  ghost predicate HasOpenRow(s: State, u: User) {
    u in s.rows && IsOpen(s, s.rows[u].session) && (u, s.rows[u].session) in s.returned
  }

  /** The user has a subscription. */
  ghost predicate Subscribed(s: State, u: User) {
    && u in s.rows && s.rows[u].session in s.sessions
    && var session := s.sessions[s.rows[u].session];
       session.status.Complete? && !session.canceled && !session.customerDeleted
  }

  /** Ready to create a session: there is no row, or the row has the reference that is to be replaced. */
  ghost predicate Ready(s: State, h: HandlerId, u: User, ref: Option<nat>) {
    && h in s.handlers && s.handlers[h] == Handler(u, Resolved(ref)) && u !in s.locks
    && (ref.None? ==> u !in s.rows) && (ref.Some? ==> u in s.rows && s.rows[u].ref == ref.value)
  }

  lemma Renews(s: State, h: HandlerId, u: User, ref: Option<nat>) returns (steps: seq<Step>, r: State)
    requires Ready(s, h, u, ref)
    ensures W.Leads(s, steps, r) && h !in r.handlers && HasOpenRow(r, u)
  {
    var write := if ref.Some? then LockRow(h) else Insert(h);
    var s1 := Do(s, Create(h));
    var s2 := Do(s1, write);
    r := Commits(s2, h, u, s.nextId);
    W.First(s1, write, [ReadAnswer(h)] + [Commit(h)], r);
    W.First(s, Create(h), [write] + ([ReadAnswer(h)] + [Commit(h)]), r);
    steps := [Create(h)] + ([write] + ([ReadAnswer(h)] + [Commit(h)]));
  }

  lemma Commits(s: State, h: HandlerId, u: User, x: SessionId) returns (r: State)
    requires h in s.handlers && s.handlers[h].user == u && IsOpen(s, x)
    requires s.handlers[h].progress.InTransaction? && s.handlers[h].progress.write.Some?
    requires s.handlers[h].progress.write.value.session == x
    ensures W.Leads(s, [ReadAnswer(h)] + [Commit(h)], r) && h !in r.handlers && HasOpenRow(r, u)
  {
    var s1 := Do(s, ReadAnswer(h));
    r := Do(s1, Commit(h));
    W.First(s1, Commit(h), [], r);
    assert [Commit(h)] + [] == [Commit(h)];
    W.First(s, ReadAnswer(h), [Commit(h)], r);
  }

  /** A handler that has read the user's row, with nothing cached for the user. */
  lemma GoesOn(s: State, h: HandlerId, u: User) returns (steps: seq<Step>, r: State)
    requires Inv(s) && u in s.rows && u !in s.locks && u !in s.cache
    requires h in s.handlers && s.handlers[h] == Handler(u, HasRow(s.rows[u]))
    ensures W.Leads(s, steps, r) && h !in r.handlers
    ensures if Subscribed(s, u) then r.rows == s.rows && r.sessions == s.sessions && r.returned == s.returned
            else HasOpenRow(r, u)
  {
    var row, session, t := s.rows[u], s.sessions[s.rows[u].session], Do(s, LookUp(h));
    var rest := [];
    r := t;
    if session.status.Complete? && session.customerDeleted {
      var q := Do(t, DeleteRow(h));
      rest, r := Renews(q, h, u, None);
      W.First(t, DeleteRow(h), rest, r);
      rest := [DeleteRow(h)] + rest;
    } else if Over(session) {
      rest, r := Renews(t, h, u, Some(row.ref));
    }
    W.First(s, LookUp(h), rest, r);
    steps := [LookUp(h)] + rest;
  }

  /**
   A request on its own, with nothing cached for its user, ends with an open session whose URL is returned and that is in
   the user's row, or leaves everything as it is when the user has a subscription.
   */
  lemma OneRequestAnswers(s: State, h: HandlerId, u: User) returns (steps: seq<Step>, r: State)
    requires Inv(s) && h !in s.handlers && u !in s.locks && u !in s.cache
    ensures W.Leads(s, steps, r) && h !in r.handlers
    ensures if Subscribed(s, u) then r.rows == s.rows && r.sessions == s.sessions && r.returned == s.returned
            else HasOpenRow(r, u)
  {
    var s1 := Do(s, Begin(h, u));
    var s2 := Do(s1, ReadRow(h));
    StepKeepsInv(s, Begin(h, u));
    StepKeepsInv(s1, ReadRow(h));
    if u in s.rows {
      steps, r := GoesOn(s2, h, u);
    } else {
      steps, r := Renews(s2, h, u, None);
    }
    W.First(s1, ReadRow(h), steps, r);
    W.First(s, Begin(h, u), [ReadRow(h)] + steps, r);
    steps := [Begin(h, u)] + ([ReadRow(h)] + steps);
  }
}
