/** The checkout protocol. */
module Checkout {
  // Any number of concurrent handlers look for a user's checkout session, create a new one when the old one can no longer
  // be used, and compare-and-replace the user's row in a transaction that skips locked rows. Stripe changes the sessions'
  // states on its own, and copies of sessions are cached under the user's id.

  import opened Wrappers

  type User = nat
  type SessionId = nat
  type HandlerId = nat

  /** One row for each user; `id` and `ref` (the client reference id) are unique as well. */
  datatype Row = Row(id: nat, ref: nat, session: SessionId)

  datatype Status = Open | Expired | Complete

  /** A Stripe session, whether its subscription is canceled, and whether its customer is deleted. */
  datatype Session = Session(user: User, ref: nat, status: Status, canceled: bool, customerDeleted: bool)

  /** A copy of a session as it was at some time. */
  datatype Cached = Cached(session: SessionId, copy: Session)

  /**
   How far a handler has got: it has read the user's row, is about to delete it, knows which reference to replace
   (or that there is no row), has created a session, has locked or inserted the row if it could, has read the row
   that it will answer with.
   */
  datatype Progress =
    | Started
    | HasRow(row: Row)
    | Deleting(row: Row)
    | Resolved(ref: Option<nat>)
    | Created(ref: Option<nat>, session: SessionId)
    | InTransaction(session: SessionId, write: Option<Row>)
    | HasAnswer(session: SessionId, write: Option<Row>, answer: SessionId)

  datatype Handler = Handler(user: User, progress: Progress)

  /**
   Committed rows, row locks, Stripe's sessions, their cached copies, running handlers, a source of fresh ids; and as
   history the sessions that were ever stored for a user, those whose URL was returned, and who replaced which
   reference.
   */
  datatype State = State(
    rows: map<User, Row>,
    locks: map<User, HandlerId>,
    sessions: map<SessionId, Session>,
    cache: map<User, Cached>,
    handlers: map<HandlerId, Handler>,
    nextId: nat,
    stored: set<(User, SessionId)>,
    returned: set<(User, SessionId)>,
    replaced: seq<(nat, HandlerId)>)

  datatype Step =
    | Begin(h: HandlerId, user: User)
    | ReadRow(h: HandlerId)
    | LookUp(h: HandlerId)
    | DeleteRow(h: HandlerId)
    | Create(h: HandlerId)
    | LockRow(h: HandlerId)
    | Insert(h: HandlerId)
    | ReadAnswer(h: HandlerId)
    | Commit(h: HandlerId)
    | Abort(h: HandlerId)
    | Expire(session: SessionId)
    | Pay(session: SessionId)
    | Cancel(session: SessionId)
    | DeleteCustomer(session: SessionId)
    | EventDeletesRow(user: User)
    | CacheSession(user: User, session: SessionId, copy: Session)
    | ForgetCached(user: User)

  ghost function Init(): State {
    State(map[], map[], map[], map[], map[], 0, {}, {}, [])
  }

  ghost predicate Enabled(s: State, step: Step) {
    match step
    case Begin(h, _) => h !in s.handlers
    case ReadRow(h) => h in s.handlers && s.handlers[h].progress.Started?
    case LookUp(h) =>
      h in s.handlers && s.handlers[h].progress.HasRow?
      && (s.handlers[h].user in s.cache || s.handlers[h].progress.row.session in s.sessions)
    case DeleteRow(h) => h in s.handlers && s.handlers[h].progress.Deleting? && s.handlers[h].user !in s.locks
    case Create(h) => h in s.handlers && s.handlers[h].progress.Resolved?
    case LockRow(h) => h in s.handlers && s.handlers[h].progress.Created? && s.handlers[h].progress.ref.Some?
    case Insert(h) =>
      h in s.handlers && s.handlers[h].progress.Created? && s.handlers[h].progress.ref.None?
      && s.handlers[h].user !in s.locks && s.handlers[h].progress.session in s.sessions
    case ReadAnswer(h) => h in s.handlers && s.handlers[h].progress.InTransaction?
    case Commit(h) => h in s.handlers && s.handlers[h].progress.HasAnswer?
    case Abort(h) => h in s.handlers
    case Expire(x) => x in s.sessions && s.sessions[x].status.Open?
    case Pay(x) => x in s.sessions && s.sessions[x].status.Open?
    case Cancel(x) => x in s.sessions && s.sessions[x].status.Complete?
    case DeleteCustomer(x) => x in s.sessions && s.sessions[x].status.Complete?
    case EventDeletesRow(user) => user !in s.locks
    case CacheSession(user, x, copy) => (user, x) in s.stored && x in s.sessions && Earlier(copy, s.sessions[x])
    case ForgetCached(_) => true
  }

  /** A copy that may have been made before the session became what it is. */
  predicate Earlier(copy: Session, now: Session) {
    && copy.user == now.user && copy.ref == now.ref
    && (copy.status.Open? || copy.status == now.status)
    && (copy.canceled ==> now.canceled)
    && (copy.customerDeleted ==> now.customerDeleted)
  }

  function Move(s: State, h: HandlerId, p: Progress): State
    requires h in s.handlers
  {
    s.(handlers := s.handlers[h := Handler(s.handlers[h].user, p)])
  }

  /** The end of a handler, by an answer, an error or a crash: its locks and uncommitted writes are gone. */
  function Drop(s: State, h: HandlerId): State {
    s.(handlers := s.handlers - {h}, locks := map u | u in s.locks && s.locks[u] != h :: s.locks[u])
  }

  ghost function Do(s: State, step: Step): State
    requires Enabled(s, step)
  {
    match step
    case Begin(h, user) => s.(handlers := s.handlers[h := Handler(user, Started)])
    case ReadRow(h) =>
      var u := s.handlers[h].user;
      Move(s, h, if u in s.rows then HasRow(s.rows[u]) else Resolved(None))
    case LookUp(h) => DoLookUp(s, h)
    case DeleteRow(h) =>
      Move(RemoveRow(s, s.handlers[h].user, s.handlers[h].progress.row.id), h, Resolved(None))
    case Create(h) =>
      var x, ref := s.nextId, s.nextId + 1;
      Move(s.(sessions := s.sessions[x := Session(s.handlers[h].user, ref, Open, false, false)], nextId := s.nextId + 2),
           h, Created(s.handlers[h].progress.ref, x))
    case LockRow(h) => DoLockRow(s, h)
    case Insert(h) => DoInsert(s, h)
    case ReadAnswer(h) => DoReadAnswer(s, h)
    case Commit(h) => DoCommit(s, h)
    case Abort(h) => Drop(s, h)
    case Expire(x) => s.(sessions := s.sessions[x := s.sessions[x].(status := Expired)])
    case Pay(x) => s.(sessions := s.sessions[x := s.sessions[x].(status := Complete)])
    case Cancel(x) => s.(sessions := s.sessions[x := s.sessions[x].(canceled := true)])
    case DeleteCustomer(x) => s.(sessions := s.sessions[x := s.sessions[x].(customerDeleted := true)])
    case EventDeletesRow(user) => s.(rows := s.rows - {user})
    case CacheSession(user, x, copy) => s.(cache := s.cache[user := Cached(x, copy)])
    case ForgetCached(user) => s.(cache := s.cache - {user})
  }

  /** What Stripe and the cache have stays as it is. */
  ghost predicate ElsewhereSame(s: State, r: State) {
    r.sessions == s.sessions && r.cache == s.cache && s.stored <= r.stored
  }

  /** DELETE ... WHERE id = ...; the ids of rows survive a replacement. */
  function RemoveRow(s: State, u: User, id: nat): State {
    if u in s.rows && s.rows[u].id == id then s.(rows := s.rows - {u}) else s
  }

  /**
   What the lookup goes by: the copy that is cached for the user, whichever session it is a copy of, or else the
   session of the row as Stripe has it. What was retrieved enters the cache in a step of its own.
   */
  ghost function Found(s: State, h: HandlerId): Session
    requires Enabled(s, LookUp(h))
  {
    var u := s.handlers[h].user;
    if u in s.cache then s.cache[u].copy else s.sessions[s.handlers[h].progress.row.session]
  }

  /** Whether a session is over such that the row's reference is to be replaced. */
  predicate Replaces(session: Session) {
    session.status.Expired? || (session.status.Complete? && !session.customerDeleted && session.canceled)
  }

  /** What the session's status leads to. A portal URL is not a checkout session. */
  ghost function DoLookUp(s: State, h: HandlerId): (r: State)
    requires Enabled(s, LookUp(h))
    ensures ElsewhereSame(s, r)
  {
    var row := s.handlers[h].progress.row;
    var session := Found(s, h);
    match session.status
    case Open => Drop(s.(returned := s.returned + {(s.handlers[h].user, row.session)}), h)
    case Expired => Move(s, h, Resolved(Some(row.ref)))
    case Complete =>
      if session.customerDeleted then Move(s, h, Deleting(row))
      else if session.canceled then Move(s, h, Resolved(Some(row.ref)))
      else Drop(s, h)
  }

  /** SELECT ... FOR UPDATE SKIP LOCKED by reference, and the update of the row that was found. */
  ghost function DoLockRow(s: State, h: HandlerId): (r: State)
    requires Enabled(s, LockRow(h))
    ensures ElsewhereSame(s, r)
  {
    var u, x, ref := s.handlers[h].user, s.handlers[h].progress.session, s.handlers[h].progress.ref.value;
    if u in s.rows && s.rows[u].ref == ref && u !in s.locks && x in s.sessions
    then Move(s.(locks := s.locks[u := h]), h, InTransaction(x, Some(Row(s.rows[u].id, s.sessions[x].ref, x))))
    else Move(s, h, InTransaction(x, None))
  }

  /** INSERT IGNORE: it waits while somebody else is changing the user's row, and does nothing if there is one. */
  ghost function DoInsert(s: State, h: HandlerId): (r: State)
    requires Enabled(s, Insert(h))
    ensures ElsewhereSame(s, r)
  {
    var u, x := s.handlers[h].user, s.handlers[h].progress.session;
    if u in s.rows then Move(s, h, InTransaction(x, None))
    else Move(s.(locks := s.locks[u := h], nextId := s.nextId + 1), h,
              InTransaction(x, Some(Row(s.nextId, s.sessions[x].ref, x))))
  }

  /** The row that the transaction sees: its own write, or what is committed. Without a row the handler fails. */
  ghost function DoReadAnswer(s: State, h: HandlerId): (r: State)
    requires Enabled(s, ReadAnswer(h))
    ensures ElsewhereSame(s, r)
  {
    var u, p := s.handlers[h].user, s.handlers[h].progress;
    if p.write.Some? then Move(s, h, HasAnswer(p.session, p.write, p.write.value.session))
    else if u in s.rows then Move(s, h, HasAnswer(p.session, None, s.rows[u].session))
    else Drop(s, h)
  }

  ghost function DoCommit(s: State, h: HandlerId): (r: State)
    requires Enabled(s, Commit(h))
    ensures ElsewhereSame(s, r)
  {
    var u, p := s.handlers[h].user, s.handlers[h].progress;
    Drop(s.(rows := if p.write.Some? then s.rows[u := p.write.value] else s.rows,
            stored := if p.write.Some? then s.stored + {(u, p.write.value.session)} else s.stored,
            returned := s.returned + {(u, p.answer)},
            replaced := if p.write.Some? && u in s.rows then s.replaced + [(s.rows[u].ref, h)] else s.replaced), h)
  }

  // ----- The invariant -----

  ghost predicate IsOpen(s: State, x: SessionId) {
    x in s.sessions && s.sessions[x].status.Open?
  }

  /** References and sessions belong to each other, and fresh ids are fresh. */
  ghost predicate SessionsOk(s: State) {
    && (forall x :: x in s.sessions ==> x < s.nextId && s.sessions[x].ref < s.nextId)
    && (forall x, y :: x in s.sessions && y in s.sessions && s.sessions[x].ref == s.sessions[y].ref ==> x == y)
  }

  ghost predicate RowsOk(s: State) {
    forall u :: u in s.rows ==>
      && (u, s.rows[u].session) in s.stored
      && s.rows[u].session in s.sessions && s.sessions[s.rows[u].session].ref == s.rows[u].ref
  }

  /** A stored session that is still open is the one in its user's row. */
  ghost predicate StoredOk(s: State) {
    && (forall u, x :: (u, x) in s.stored && IsOpen(s, x) ==> u in s.rows && s.rows[u].session == x)
    && (forall u, x :: (u, x) in s.stored ==> x in s.sessions && s.sessions[x].user == u)
    && s.returned == s.stored
  }

  /** The session of a reference is over. */
  ghost predicate RefOver(s: State, ref: nat) {
    ref < s.nextId && forall x :: x in s.sessions && s.sessions[x].ref == ref ==> !s.sessions[x].status.Open?
  }

  /** The handler's own new session is nobody else's and not stored yet. */
  ghost predicate NewSession(s: State, u: User, x: SessionId) {
    x in s.sessions && s.sessions[x].user == u && (u, x) !in s.stored
  }

  ghost predicate WriteOk(s: State, h: HandlerId, u: User, x: SessionId, write: Option<Row>) {
    write.Some? ==>
      && u in s.locks && s.locks[u] == h
      && write.value.session == x && x in s.sessions && write.value.ref == s.sessions[x].ref
      && (u in s.rows ==> !IsOpen(s, s.rows[u].session))
  }

  ghost predicate HandlerOk(s: State, h: HandlerId, u: User, p: Progress) {
    match p
    case Started => true
    case HasRow(row) => StoredRow(s, u, row)
    case Deleting(row) => StoredRow(s, u, row)
    case Resolved(ref) => ref.Some? ==> RefOver(s, ref.value)
    case Created(ref, x) => (ref.Some? ==> RefOver(s, ref.value)) && NewSession(s, u, x)
    case InTransaction(x, write) => NewSession(s, u, x) && WriteOk(s, h, u, x, write)
    case HasAnswer(x, write, answer) =>
      NewSession(s, u, x) && WriteOk(s, h, u, x, write)
      && (if write.Some? then answer == x else (u, answer) in s.stored)
  }

  ghost predicate StoredRow(s: State, u: User, row: Row) {
    (u, row.session) in s.stored && row.session in s.sessions && s.sessions[row.session].ref == row.ref
  }

  ghost predicate HandlersOk(s: State) {
    forall h :: h in s.handlers ==> HandlerOk(s, h, s.handlers[h].user, s.handlers[h].progress)
  }

  function SessionOf(p: Progress): Option<SessionId> {
    match p
    case Created(_, x) => Some(x)
    case InTransaction(x, _) => Some(x)
    case HasAnswer(x, _, _) => Some(x)
    case _ => None
  }

  ghost predicate OwnSessions(s: State) {
    forall g, h :: g in s.handlers && h in s.handlers && g != h && SessionOf(s.handlers[g].progress).Some? ==>
      SessionOf(s.handlers[g].progress) != SessionOf(s.handlers[h].progress)
  }

  function WriteOf(p: Progress): Option<Row> {
    match p
    case InTransaction(_, write) => write
    case HasAnswer(_, write, _) => write
    case _ => None
  }

  /** Who holds the lock of a row has written it. */
  ghost predicate LocksOk(s: State) {
    forall u :: u in s.locks ==>
      s.locks[u] in s.handlers && s.handlers[s.locks[u]].user == u && WriteOf(s.handlers[s.locks[u]].progress).Some?
  }

  /** A replaced reference was stored once and is in no row any more. */
  ghost predicate ReplacedOk(s: State) {
    && (forall i, j :: 0 <= i < j < |s.replaced| ==> s.replaced[i].0 != s.replaced[j].0)
    && (forall i :: 0 <= i < |s.replaced| ==> Gone(s, s.replaced[i].0))
  }

  ghost predicate Gone(s: State, ref: nat) {
    && (exists u, x :: (u, x) in s.stored && x in s.sessions && s.sessions[x].ref == ref)
    && (forall u :: u in s.rows ==> s.rows[u].ref != ref)
  }

  ghost predicate Inv(s: State) {
    SessionsOk(s) && RowsOk(s) && StoredOk(s) && HandlersOk(s) && OwnSessions(s) && LocksOk(s) && ReplacedOk(s)
  }

  /**
   A deletion does no harm when the session that is in the row now is not open; a lookup that leads to a replacement
   does none when the session of the row that was read is not open.
   */
  ghost predicate Harmless(s: State, step: Step) {
    match step
    case DeleteRow(h) =>
      h in s.handlers && s.handlers[h].progress.Deleting? ==>
        var u := s.handlers[h].user;
        u in s.rows && s.rows[u].id == s.handlers[h].progress.row.id ==> !IsOpen(s, s.rows[u].session)
    case EventDeletesRow(u) => u in s.rows ==> !IsOpen(s, s.rows[u].session)
    case LookUp(h) => Enabled(s, step) && Replaces(Found(s, h)) ==> !IsOpen(s, s.handlers[h].progress.row.session)
    case _ => true
  }

  // ----- Stripe's steps -----

  /** A session never opens again. */
  lemma SessionChanges(s: State, x: SessionId, session: Session)
    requires Inv(s) && x in s.sessions
    requires session.user == s.sessions[x].user && session.ref == s.sessions[x].ref
    requires session.status.Open? ==> s.sessions[x].status.Open?
    ensures Inv(s.(sessions := s.sessions[x := session]))
  {
    var r := s.(sessions := s.sessions[x := session]);
    forall h | h in r.handlers ensures HandlerOk(r, h, r.handlers[h].user, r.handlers[h].progress) {
      assert HandlerOk(s, h, s.handlers[h].user, s.handlers[h].progress);
      HandlerSeesChange(s, x, session, h);
    }
    forall i | 0 <= i < |r.replaced| ensures Gone(r, r.replaced[i].0) {
      assert Gone(s, s.replaced[i].0);
    }
  }

  lemma HandlerSeesChange(s: State, x: SessionId, session: Session, h: HandlerId)
    requires x in s.sessions && h in s.handlers && HandlerOk(s, h, s.handlers[h].user, s.handlers[h].progress)
    requires session.user == s.sessions[x].user && session.ref == s.sessions[x].ref
    requires session.status.Open? ==> s.sessions[x].status.Open?
    ensures HandlerOk(s.(sessions := s.sessions[x := session]), h, s.handlers[h].user, s.handlers[h].progress)
  {
  }

  predicate OfStripe(step: Step) {
    step.Expire? || step.Pay? || step.Cancel? || step.DeleteCustomer?
  }

  lemma StripeKeeps(s: State, step: Step)
    requires Inv(s) && OfStripe(step) && Enabled(s, step)
    ensures Inv(Do(s, step))
  {
    var x := step.session;
    SessionChanges(s, x, Do(s, step).sessions[x]);
  }

  lemma CacheChanges(s: State, cache: map<User, Cached>)
    requires Inv(s)
    ensures Inv(s.(cache := cache))
  {
    var r := s.(cache := cache);
    forall h | h in r.handlers ensures HandlerOk(r, h, r.handlers[h].user, r.handlers[h].progress) {
      assert HandlerOk(s, h, s.handlers[h].user, s.handlers[h].progress);
    }
    forall i | 0 <= i < |r.replaced| ensures Gone(r, r.replaced[i].0) {
      assert Gone(s, s.replaced[i].0);
    }
  }

  // ----- Handlers -----

  /** Steps of a handler that change neither the committed rows nor the sessions. */
  lemma HandlerMoves(s: State, s': State, h: HandlerId, p: Progress)
    requires Inv(s) && h in s.handlers
    requires s'.handlers == s.handlers[h := Handler(s.handlers[h].user, p)]
    requires s'.rows == s.rows && s'.sessions == s.sessions && s'.stored == s.stored
    requires s'.returned == s.returned && s'.replaced == s.replaced && s'.nextId >= s.nextId
    requires if s'.locks == s.locks then WriteOf(p) == WriteOf(s.handlers[h].progress)
             else s.handlers[h].user !in s.locks && s'.locks == s.locks[s.handlers[h].user := h] && WriteOf(p).Some?
    requires HandlerOk(s', h, s.handlers[h].user, p)
    requires SessionOf(p).Some? ==> forall g :: g in s.handlers && g != h ==> SessionOf(s.handlers[g].progress) != SessionOf(p)
    ensures Inv(s')
  {
    forall g | g in s'.handlers ensures HandlerOk(s', g, s'.handlers[g].user, s'.handlers[g].progress) {
      if g != h {
        OtherUnmoved(s, s', h, g);
      }
    }
    forall i | 0 <= i < |s'.replaced| ensures Gone(s', s'.replaced[i].0) {
      assert Gone(s, s.replaced[i].0);
    }
  }

  lemma OtherUnmoved(s: State, s': State, h: HandlerId, g: HandlerId)
    requires h in s.handlers && g in s.handlers && g != h && HandlersOk(s)
    requires s'.rows == s.rows && s'.sessions == s.sessions && s'.stored == s.stored && s'.nextId >= s.nextId
    requires s'.locks == s.locks || (s.handlers[h].user !in s.locks && s'.locks == s.locks[s.handlers[h].user := h])
    ensures HandlerOk(s', g, s.handlers[g].user, s.handlers[g].progress)
  {
    assert HandlerOk(s, g, s.handlers[g].user, s.handlers[g].progress);
  }

  /** A handler ends; nothing else changes. */
  lemma HandlerEnds(s: State, s': State, h: HandlerId)
    requires Inv(s)
    requires s' == Drop(s, h)
    ensures Inv(s')
  {
    forall g | g in s'.handlers ensures HandlerOk(s', g, s'.handlers[g].user, s'.handlers[g].progress) {
      assert HandlerOk(s, g, s.handlers[g].user, s.handlers[g].progress);
    }
    forall i | 0 <= i < |s'.replaced| ensures Gone(s', s'.replaced[i].0) {
      assert Gone(s, s.replaced[i].0);
    }
  }

  lemma BeginKeeps(s: State, h: HandlerId, user: User)
    requires Inv(s) && Enabled(s, Begin(h, user))
    ensures Inv(Do(s, Begin(h, user)))
  {
    var r := Do(s, Begin(h, user));
    forall g | g in r.handlers ensures HandlerOk(r, g, r.handlers[g].user, r.handlers[g].progress) {
      if g != h {
        assert HandlerOk(s, g, s.handlers[g].user, s.handlers[g].progress);
      }
    }
    forall i | 0 <= i < |r.replaced| ensures Gone(r, r.replaced[i].0) {
      assert Gone(s, s.replaced[i].0);
    }
  }

  lemma LookUpKeeps(s: State, h: HandlerId)
    requires Inv(s) && Enabled(s, LookUp(h)) && Harmless(s, LookUp(h))
    ensures Inv(Do(s, LookUp(h)))
    ensures h in Do(s, LookUp(h)).handlers <==>
              Found(s, h).status.Expired? || (Found(s, h).status.Complete? && (Found(s, h).canceled || Found(s, h).customerDeleted))
  {
    assert HandlerOk(s, h, s.handlers[h].user, s.handlers[h].progress);
    var row := s.handlers[h].progress.row;
    var session := Found(s, h);
    var r := Do(s, LookUp(h));
    match session.status
    case Open =>
      assert s.returned + {(s.handlers[h].user, row.session)} == s.returned;
      HandlerEnds(s, r, h);
    case Expired => HandlerMoves(s, r, h, Resolved(Some(row.ref)));
    case Complete =>
      if session.customerDeleted {
        HandlerMoves(s, r, h, Deleting(row));
      } else if session.canceled {
        HandlerMoves(s, r, h, Resolved(Some(row.ref)));
      } else {
        HandlerEnds(s, r, h);
      }
  }

  /** Deleting a row that nobody holds keeps the invariant exactly when the row's session is not open. */
  lemma RemoveKeepsIff(s: State, u: User)
    requires Inv(s) && u in s.rows && u !in s.locks
    ensures Inv(s.(rows := s.rows - {u})) <==> !IsOpen(s, s.rows[u].session)
  {
    var r := s.(rows := s.rows - {u});
    if IsOpen(s, s.rows[u].session) {
      assert (u, s.rows[u].session) in r.stored;
    } else {
      forall h | h in r.handlers ensures HandlerOk(r, h, r.handlers[h].user, r.handlers[h].progress) {
        assert HandlerOk(s, h, s.handlers[h].user, s.handlers[h].progress);
      }
      forall i | 0 <= i < |r.replaced| ensures Gone(r, r.replaced[i].0) {
        assert Gone(s, s.replaced[i].0);
      }
    }
  }

  lemma DeleteRowKeeps(s: State, h: HandlerId)
    requires Inv(s) && Enabled(s, DeleteRow(h)) && Harmless(s, DeleteRow(h))
    ensures Inv(Do(s, DeleteRow(h)))
  {
    var u, row := s.handlers[h].user, s.handlers[h].progress.row;
    var removed := RemoveRow(s, u, row.id);
    if u in s.rows && s.rows[u].id == row.id {
      RemoveKeepsIff(s, u);
    }
    HandlerMoves(removed, Do(s, DeleteRow(h)), h, Resolved(None));
  }

  lemma EventKeeps(s: State, u: User)
    requires Inv(s) && Enabled(s, EventDeletesRow(u)) && Harmless(s, EventDeletesRow(u))
    ensures Inv(Do(s, EventDeletesRow(u)))
  {
    if u in s.rows {
      RemoveKeepsIff(s, u);
    } else {
      assert s.rows - {u} == s.rows;
    }
  }

  ghost function WithSession(s: State, u: User): State {
    s.(sessions := s.sessions[s.nextId := Session(u, s.nextId + 1, Open, false, false)], nextId := s.nextId + 2)
  }

  lemma HandlerSeesNewSession(s: State, u: User, g: HandlerId)
    requires SessionsOk(s) && RowsOk(s) && g in s.handlers && HandlerOk(s, g, s.handlers[g].user, s.handlers[g].progress)
    ensures HandlerOk(WithSession(s, u), g, s.handlers[g].user, s.handlers[g].progress)
    ensures SessionOf(s.handlers[g].progress) != Some(s.nextId)
  {
  }

  /** A session that Stripe has just created belongs to nobody yet. */
  lemma SessionAdded(s: State, u: User)
    requires Inv(s)
    ensures Inv(WithSession(s, u)) && NewSession(WithSession(s, u), u, s.nextId)
    ensures forall g :: g in s.handlers ==> SessionOf(s.handlers[g].progress) != Some(s.nextId)
  {
    var r := WithSession(s, u);
    forall g | g in r.handlers
      ensures HandlerOk(r, g, r.handlers[g].user, r.handlers[g].progress)
      ensures SessionOf(s.handlers[g].progress) != Some(s.nextId)
    {
      HandlerSeesNewSession(s, u, g);
    }
    forall i | 0 <= i < |r.replaced| ensures Gone(r, r.replaced[i].0) {
      assert Gone(s, s.replaced[i].0);
    }
  }

  lemma CreateKeeps(s: State, h: HandlerId)
    requires Inv(s) && Enabled(s, Create(h))
    ensures Inv(Do(s, Create(h)))
  {
    var u := s.handlers[h].user;
    SessionAdded(s, u);
    assert HandlerOk(s, h, u, s.handlers[h].progress);
    HandlerMoves(WithSession(s, u), Do(s, Create(h)), h, Created(s.handlers[h].progress.ref, s.nextId));
  }

  lemma LockRowKeeps(s: State, h: HandlerId)
    requires Inv(s) && Enabled(s, LockRow(h))
    ensures Inv(Do(s, LockRow(h)))
  {
    var r := Do(s, LockRow(h));
    assert HandlerOk(s, h, s.handlers[h].user, s.handlers[h].progress);
    HandlerMoves(s, r, h, r.handlers[h].progress);
  }

  lemma InsertKeeps(s: State, h: HandlerId)
    requires Inv(s) && Enabled(s, Insert(h))
    ensures Inv(Do(s, Insert(h)))
  {
    var r := Do(s, Insert(h));
    assert HandlerOk(s, h, s.handlers[h].user, s.handlers[h].progress);
    HandlerMoves(s, r, h, r.handlers[h].progress);
  }

  lemma ReadAnswerKeeps(s: State, h: HandlerId)
    requires Inv(s) && Enabled(s, ReadAnswer(h))
    ensures Inv(Do(s, ReadAnswer(h)))
  {
    var r := Do(s, ReadAnswer(h));
    assert HandlerOk(s, h, s.handlers[h].user, s.handlers[h].progress);
    if h in r.handlers {
      HandlerMoves(s, r, h, r.handlers[h].progress);
    } else {
      HandlerEnds(s, r, h);
    }
  }

  // ----- Commit -----

  /** The committed part of a transaction that has written the user's row. */
  ghost function Written(s: State, h: HandlerId, u: User, row: Row): State {
    s.(rows := s.rows[u := row], stored := s.stored + {(u, row.session)}, returned := s.returned + {(u, row.session)},
       replaced := if u in s.rows then s.replaced + [(s.rows[u].ref, h)] else s.replaced)
  }

  ghost predicate MayWrite(s: State, h: HandlerId, u: User, row: Row) {
    && h in s.handlers && s.handlers[h].user == u && SessionOf(s.handlers[h].progress) == Some(row.session)
    && NewSession(s, u, row.session) && WriteOk(s, h, u, row.session, Some(row))
  }

  lemma WrittenRows(s: State, h: HandlerId, u: User, row: Row)
    requires Inv(s) && MayWrite(s, h, u, row)
    ensures SessionsOk(Written(s, h, u, row)) && RowsOk(Written(s, h, u, row)) && StoredOk(Written(s, h, u, row))
  {
  }

  lemma WrittenReplaced(s: State, h: HandlerId, u: User, row: Row)
    requires Inv(s) && MayWrite(s, h, u, row)
    ensures ReplacedOk(Written(s, h, u, row))
  {
    var r := Written(s, h, u, row);
    forall i | 0 <= i < |s.replaced| ensures Gone(r, s.replaced[i].0) {
      GoneStays(s, h, u, row, s.replaced[i].0);
    }
    if u in s.rows {
      assert (u, s.rows[u].session) in r.stored;
      OldRefGone(s, h, u, row);
      forall i | 0 <= i < |s.replaced| ensures s.replaced[i].0 != s.rows[u].ref {
        assert Gone(s, s.replaced[i].0);
      }
    }
  }

  lemma GoneStays(s: State, h: HandlerId, u: User, row: Row, ref: nat)
    requires Inv(s) && MayWrite(s, h, u, row) && Gone(s, ref)
    ensures Gone(Written(s, h, u, row), ref)
  {
    var v, x :| (v, x) in s.stored && x in s.sessions && s.sessions[x].ref == ref;
    assert (v, x) in Written(s, h, u, row).stored;
  }

  lemma OldRefGone(s: State, h: HandlerId, u: User, row: Row)
    requires Inv(s) && MayWrite(s, h, u, row) && u in s.rows
    ensures Gone(Written(s, h, u, row), s.rows[u].ref)
  {
    var r, ref := Written(s, h, u, row), s.rows[u].ref;
    assert (u, s.rows[u].session) in r.stored;
    forall v | v in r.rows ensures r.rows[v].ref != ref {
      if v == u {
        assert row.session != s.rows[u].session;
      }
    }
  }

  /** Other handlers do not notice: they hold other locks, and their sessions are other ones. */
  lemma WrittenOther(s: State, h: HandlerId, u: User, row: Row, g: HandlerId)
    requires Inv(s) && MayWrite(s, h, u, row) && g in s.handlers && g != h
    ensures HandlerOk(Written(s, h, u, row), g, s.handlers[g].user, s.handlers[g].progress)
  {
    assert HandlerOk(s, g, s.handlers[g].user, s.handlers[g].progress);
    assert SessionOf(s.handlers[g].progress) != Some(row.session);
  }

  /** A commit with a write: the row's old session is over, so that the new one is the only stored one left open. */
  lemma CommitWriteKeeps(s: State, h: HandlerId, u: User, row: Row)
    requires Inv(s) && MayWrite(s, h, u, row)
    ensures Inv(Drop(Written(s, h, u, row), h))
  {
    WrittenRows(s, h, u, row);
    WrittenReplaced(s, h, u, row);
    var w := Written(s, h, u, row);
    var r := Drop(w, h);
    forall g | g in r.handlers ensures HandlerOk(r, g, r.handlers[g].user, r.handlers[g].progress) {
      WrittenOther(s, h, u, row, g);
    }
    forall i | 0 <= i < |r.replaced| ensures Gone(r, r.replaced[i].0) {
      assert Gone(w, w.replaced[i].0);
    }
  }

  lemma CommitKeeps(s: State, h: HandlerId)
    requires Inv(s) && Enabled(s, Commit(h))
    ensures Inv(Do(s, Commit(h)))
  {
    var u, p := s.handlers[h].user, s.handlers[h].progress;
    assert HandlerOk(s, h, u, p);
    if p.write.Some? {
      CommitWriteKeeps(s, h, u, p.write.value);
    } else {
      assert s.returned + {(u, p.answer)} == s.returned;
      HandlerEnds(s, Do(s, Commit(h)), h);
    }
  }

  // ----- Every step, every run -----

  lemma StepKeepsInv(s: State, step: Step)
    requires Inv(s) && Enabled(s, step) && Harmless(s, step)
    ensures Inv(Do(s, step))
  {
    match step
    case Begin(h, user) => BeginKeeps(s, h, user);
    case ReadRow(h) => HandlerMoves(s, Do(s, step), h, Do(s, step).handlers[h].progress);
    case LookUp(h) => LookUpKeeps(s, h);
    case DeleteRow(h) => DeleteRowKeeps(s, h);
    case Create(h) => CreateKeeps(s, h);
    case LockRow(h) => LockRowKeeps(s, h);
    case Insert(h) => InsertKeeps(s, h);
    case ReadAnswer(h) => ReadAnswerKeeps(s, h);
    case Commit(h) => CommitKeeps(s, h);
    case Abort(h) => HandlerEnds(s, Do(s, step), h);
    case Expire(_) => StripeKeeps(s, step);
    case Pay(_) => StripeKeeps(s, step);
    case Cancel(_) => StripeKeeps(s, step);
    case DeleteCustomer(_) => StripeKeeps(s, step);
    case EventDeletesRow(u) => EventKeeps(s, u);
    case CacheSession(_, _, _) => CacheChanges(s, Do(s, step).cache);
    case ForgetCached(_) => CacheChanges(s, Do(s, step).cache);
  }

  ghost predicate IsRun(s: State, steps: seq<Step>)
    decreases |steps|
  {
    steps == [] || (Enabled(s, steps[0]) && IsRun(Do(s, steps[0]), steps[1..]))
  }

  ghost function After(s: State, steps: seq<Step>): State
    requires IsRun(s, steps)
    decreases |steps|
  {
    if steps == [] then s else After(Do(s, steps[0]), steps[1..])
  }

  ghost predicate AllHarmless(s: State, steps: seq<Step>)
    requires IsRun(s, steps)
    decreases |steps|
  {
    steps == [] || (Harmless(s, steps[0]) && AllHarmless(Do(s, steps[0]), steps[1..]))
  }

  lemma {:induction false} RunKeepsInv(s: State, steps: seq<Step>)
    requires Inv(s) && IsRun(s, steps) && AllHarmless(s, steps)
    ensures Inv(After(s, steps))
    decreases |steps|
  {
    if steps != [] {
      StepKeepsInv(s, steps[0]);
      RunKeepsInv(Do(s, steps[0]), steps[1..]);
    }
  }

  lemma InitInv()
    ensures Inv(Init())
  {
  }

  ghost predicate AtMostOneOpen(s: State) {
    forall u, x, y :: (u, x) in s.returned && (u, y) in s.returned && IsOpen(s, x) && IsOpen(s, y) ==> x == y
  }

  lemma InvShowsOne(s: State)
    requires Inv(s)
    ensures AtMostOneOpen(s)
  {
    forall u, x, y | (u, x) in s.returned && (u, y) in s.returned && IsOpen(s, x) && IsOpen(s, y) ensures x == y {
      assert s.rows[u].session == x;
    }
  }

  /**
   In every interleaving of handlers, with aborts and crashes anywhere and any contents of the cache, as long as every
   deletion and every lookup is harmless: of all sessions whose URL was ever returned to a user at most one is open,
   and each reference was replaced by at most one handler.
   */
  lemma OneOpenSession(steps: seq<Step>)
    requires IsRun(Init(), steps) && AllHarmless(Init(), steps)
    ensures var s := After(Init(), steps);
            && AtMostOneOpen(s)
            && (forall i, j :: 0 <= i < j < |s.replaced| ==> s.replaced[i].0 != s.replaced[j].0)
  {
    InitInv();
    RunKeepsInv(Init(), steps);
    InvShowsOne(After(Init(), steps));
  }

  // ----- When a lookup is harmless -----

  /** A cached copy is one of a session that was stored for the user. */
  ghost predicate CacheInv(s: State) {
    forall u :: u in s.cache ==> CopyOk(s, u, s.cache[u])
  }

  ghost predicate CopyOk(s: State, u: User, c: Cached) {
    (u, c.session) in s.stored && c.session in s.sessions && Earlier(c.copy, s.sessions[c.session])
  }

  /** Sessions never go back to what they were, and none is forgotten. */
  ghost predicate OnlyAge(s: State, r: State) {
    && s.stored <= r.stored
    && forall x :: x in s.sessions ==> x in r.sessions && Earlier(s.sessions[x], r.sessions[x])
  }

  lemma OtherStepsKeepBoth(s: State, step: Step)
    requires Enabled(s, step) && !OfStripe(step) && !step.Create? && !step.CacheSession? && !step.ForgetCached?
    ensures ElsewhereSame(s, Do(s, step))
  {
  }

  lemma SessionsOnlyAge(s: State, step: Step)
    requires SessionsOk(s) && Enabled(s, step)
    ensures OnlyAge(s, Do(s, step))
  {
    if step.Create? || OfStripe(step) || step.CacheSession? || step.ForgetCached? {
    } else {
      OtherStepsKeepBoth(s, step);
    }
  }

  lemma CopyStaysOk(s: State, r: State, u: User, c: Cached)
    requires OnlyAge(s, r) && CopyOk(s, u, c)
    ensures CopyOk(r, u, c)
  {
  }

  lemma StepKeepsCacheInv(s: State, step: Step)
    requires SessionsOk(s) && CacheInv(s) && Enabled(s, step)
    ensures CacheInv(Do(s, step))
  {
    if step.CacheSession? || step.ForgetCached? {
    } else {
      SessionsOnlyAge(s, step);
      if !step.Create? && !OfStripe(step) {
        OtherStepsKeepBoth(s, step);
      }
      forall u | u in s.cache ensures CopyOk(Do(s, step), u, s.cache[u]) {
        CopyStaysOk(s, Do(s, step), u, s.cache[u]);
      }
    }
  }

  /** Nothing goes wrong as long as what is cached for the user is a copy of the session that the handler has read. */
  lemma OwnCopyIsHarmless(s: State, h: HandlerId)
    requires Inv(s) && CacheInv(s) && Enabled(s, LookUp(h))
    requires var u := s.handlers[h].user; u in s.cache ==> s.cache[u].session == s.handlers[h].progress.row.session
    ensures Harmless(s, LookUp(h))
  {
    assert HandlerOk(s, h, s.handlers[h].user, s.handlers[h].progress);
    if s.handlers[h].user in s.cache {
      assert CopyOk(s, s.handlers[h].user, s.cache[s.handlers[h].user]);
    }
  }
}
