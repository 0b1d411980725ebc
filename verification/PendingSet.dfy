/**
 The pending set of a shard: a Redis sorted set whose members are webhook jobs.
 A sorted set keeps its members in ascending order of score, and members with
 the same score in the order of their bytes. Webhook ids are UUIDs of one fixed
 length, so the order of their bytes is the order of the numbers they stand for.
 */
module PendingSet {

  type WebhookId = nat

  datatype Job = Job(id: WebhookId, height: nat, isNew: bool)

  datatype Entry = Entry(score: nat, job: Job)

  predicate JobBefore(a: Job, b: Job) {
    a.id < b.id || (a.id == b.id && (a.height < b.height || (a.height == b.height && !a.isNew && b.isNew)))
  }

  predicate Before(a: Entry, b: Entry) {
    a.score < b.score || (a.score == b.score && JobBefore(a.job, b.job))
  }

  ghost predicate Sorted(p: seq<Entry>) {
    forall i, j :: 0 <= i < j < |p| ==> Before(p[i], p[j])
  }

  /** Scores repeat the block height stored in the member. */
  ghost predicate ScoresMatch(p: seq<Entry>) {
    forall e :: e in p ==> e.score == e.job.height
  }

  function Insert(p: seq<Entry>, e: Entry): seq<Entry> {
    if p == [] || Before(e, p[0]) then [e] + p else [p[0]] + Insert(p[1..], e)
  }

  function Erase(p: seq<Entry>, job: Job): seq<Entry> {
    if p == [] then [] else (if p[0].job == job then [] else [p[0]]) + Erase(p[1..], job)
  }

  /** ZADD: adds the member, or moves it to the new score when it is already there. */
  function ZAdd(p: seq<Entry>, score: nat, job: Job): seq<Entry> {
    Insert(Erase(p, job), Entry(score, job))
  }

  ghost function JobsOf(p: seq<Entry>): set<Job> {
    set e | e in p :: e.job
  }

  /** How many pending jobs a webhook has. */
  ghost function Count(p: seq<Entry>, id: WebhookId): nat {
    if p == [] then 0 else (if p[0].job.id == id then 1 else 0) + Count(p[1..], id)
  }

  lemma SortedTail(p: seq<Entry>)
    requires p != [] && Sorted(p)
    ensures Sorted(p[1..]) && forall e :: e in p[1..] ==> Before(p[0], e)
  {
    forall e | e in p[1..] ensures Before(p[0], e) {
      var i :| 0 <= i < |p[1..]| && p[1..][i] == e;
      assert p[i + 1] == e;
    }
  }

  lemma SortedCons(e: Entry, p: seq<Entry>)
    requires Sorted(p) && forall x :: x in p ==> Before(e, x)
    ensures Sorted([e] + p)
  {
  }

  lemma {:induction false} InsertExact(p: seq<Entry>, e: Entry)
    requires Sorted(p) && e.job !in JobsOf(p)
    ensures Sorted(Insert(p, e))
    ensures forall x :: x in Insert(p, e) <==> x in p || x == e
  {
    if p == [] {
    } else if Before(e, p[0]) {
      SortedTail(p);
      assert ([e] + p)[1..] == p;
      assert forall x :: x in p <==> x == p[0] || x in p[1..];
      SortedCons(e, p);
    } else {
      SortedTail(p);
      assert p[0].job in JobsOf(p);
      assert forall x :: x in p <==> x == p[0] || x in p[1..];
      InsertExact(p[1..], e);
      SortedCons(p[0], Insert(p[1..], e));
      assert ([p[0]] + Insert(p[1..], e))[1..] == Insert(p[1..], e);
    }
  }

  lemma {:induction false} EraseExact(p: seq<Entry>, job: Job)
    requires Sorted(p)
    ensures Sorted(Erase(p, job))
    ensures forall x :: x in Erase(p, job) <==> x in p && x.job != job
    ensures job !in JobsOf(p) ==> Erase(p, job) == p
  {
    if p != [] {
      SortedTail(p);
      assert forall x :: x in p <==> x == p[0] || x in p[1..];
      EraseExact(p[1..], job);
      if p[0].job != job {
        SortedCons(p[0], Erase(p[1..], job));
      }
      assert p[0].job in JobsOf(p);
      assert p == [p[0]] + p[1..];
    }
  }

  /** After ZADD the member is present once, at the new score, and every other member is where it was. */
  lemma ZAddExact(p: seq<Entry>, score: nat, job: Job)
    requires Sorted(p)
    ensures Sorted(ZAdd(p, score, job))
    ensures forall x :: x in ZAdd(p, score, job) <==> (x in p && x.job != job) || x == Entry(score, job)
  {
    EraseExact(p, job);
    InsertExact(Erase(p, job), Entry(score, job));
  }

  lemma {:induction false} InsertCount(p: seq<Entry>, e: Entry, id: WebhookId)
    ensures Count(Insert(p, e), id) == Count(p, id) + if e.job.id == id then 1 else 0
  {
    if p == [] || Before(e, p[0]) {
      assert ([e] + p)[1..] == p;
    } else {
      InsertCount(p[1..], e, id);
      assert ([p[0]] + Insert(p[1..], e))[1..] == Insert(p[1..], e);
    }
  }

  /** ZADD of a member that is not there adds one job. */
  lemma ZAddCount(p: seq<Entry>, score: nat, job: Job, id: WebhookId)
    requires Sorted(p) && job !in JobsOf(p)
    ensures Count(ZAdd(p, score, job), id) == Count(p, id) + if job.id == id then 1 else 0
  {
    EraseExact(p, job);
    InsertCount(p, Entry(score, job), id);
  }

  lemma {:induction false} CountConcat(a: seq<Entry>, b: seq<Entry>, id: WebhookId)
    ensures Count(a + b, id) == Count(a, id) + Count(b, id)
  {
    if a == [] {
      assert a + b == b;
    } else {
      CountConcat(a[1..], b, id);
      assert (a + b)[1..] == a[1..] + b;
    }
  }

  lemma {:induction false} CountMembers(p: seq<Entry>, id: WebhookId)
    ensures Count(p, id) > 0 <==> exists e :: e in p && e.job.id == id
  {
    if p != [] {
      CountMembers(p[1..], id);
      assert forall x :: x in p <==> x == p[0] || x in p[1..];
    }
  }
}
