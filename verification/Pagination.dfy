/** The webhook list of the dashboard: keyset pagination in two directions over rows ordered by creation time and id. */
module Pagination {
  import opened Wrappers

  datatype Row = Row(id: nat, createdAt: nat, customer: nat, blockchain: string, isActive: bool, url: string)

  datatype Filters = Filters(blockchain: Option<string>, isActive: Option<bool>, url: Option<string>)

  datatype Cursor = Cursor(id: nat, reverse: bool)

  datatype Page = Page(payload: seq<Row>, hasNext: bool, hasPrev: bool)

  /** The sort key (createdAt, id) of the first row is the larger one. */
  predicate Above(a: Row, b: Row) {
    a.createdAt > b.createdAt || (a.createdAt == b.createdAt && a.id > b.id)
  }

  /** The table in descending order of the sort key, with one row for each id. */
  ghost predicate Table(rows: seq<Row>) {
    && (forall i, j :: 0 <= i < j < |rows| ==> Above(rows[i], rows[j]))
    && (forall i, j :: 0 <= i < j < |rows| ==> rows[i].id != rows[j].id)
  }

  ghost predicate Ordered(rows: seq<Row>) {
    forall i, j :: 0 <= i < j < |rows| ==> Above(rows[i], rows[j])
  }

  /** The WHERE clause without the cursor. Empty strings do not filter, and neither does `false`. */
  predicate Matches(r: Row, customer: nat, f: Filters, like: (string, string) -> bool) {
    && r.customer == customer
    && (f.blockchain.Some? && f.blockchain.value != "" ==> r.blockchain == f.blockchain.value)
    && (f.url.Some? && f.url.value != "" ==> like(r.url, f.url.value))
    && (f.isActive.Some? && f.isActive.value ==> r.isActive == f.isActive.value)
  }

  /** The part of the WHERE clause that the cursor row adds. */
  predicate Beyond(r: Row, cursor: Option<(Row, bool)>) {
    match cursor
    case None => true
    case Some((c, reverse)) => if reverse then Above(r, c) else Above(c, r)
  }

  /** SELECT ... WHERE, in descending order of the sort key. */
  function Select(
    rows: seq<Row>, customer: nat, f: Filters, like: (string, string) -> bool, cursor: Option<(Row, bool)>): seq<Row>
  {
    if rows == [] then []
    else
      (if Matches(rows[0], customer, f, like) && Beyond(rows[0], cursor) then [rows[0]] else [])
      + Select(rows[1..], customer, f, like, cursor)
  }

  function Reverse(rows: seq<Row>): (r: seq<Row>)
    ensures |r| == |rows| && forall i :: 0 <= i < |rows| ==> r[i] == rows[|rows| - 1 - i]
  {
    seq(|rows|, i requires 0 <= i < |rows| => rows[|rows| - 1 - i])
  }

  function FindById(rows: seq<Row>, customer: nat, id: nat): Option<Row> {
    if rows == [] then None
    else if rows[0].customer == customer && rows[0].id == id then Some(rows[0])
    else FindById(rows[1..], customer, id)
  }

  /** The cursor's row and direction; a cursor without a row counts as none. */
  function Located(rows: seq<Row>, customer: nat, cursor: Option<Cursor>): Option<(Row, bool)> {
    if cursor.None? then None
    else match FindById(rows, customer, cursor.value.id)
         case None => None
         case Some(row) => Some((row, cursor.value.reverse))
  }

  // ----- The reference: a page is a slice of the matching rows -----

  function Matching(rows: seq<Row>, customer: nat, f: Filters, like: (string, string) -> bool): seq<Row> {
    Select(rows, customer, f, like, None)
  }

  /** How many leading rows are above the given one, or how many are not below it. */
  function CountAbove(m: seq<Row>, c: Row): (k: nat)
    ensures k <= |m|
  {
    if m == [] || !Above(m[0], c) then 0 else 1 + CountAbove(m[1..], c)
  }

  function CountNotBelow(m: seq<Row>, c: Row): (k: nat)
    ensures k <= |m|
  {
    if m == [] || Above(c, m[0]) then 0 else 1 + CountNotBelow(m[1..], c)
  }

  function Min(a: nat, b: nat): nat {
    if a < b then a else b
  }

  /** From where to where the page reaches. */
  function PageStart(m: seq<Row>, at: Option<(Row, bool)>, limit: nat): (k: nat)
    ensures k <= |m|
  {
    match at
    case None => 0
    case Some((c, reverse)) =>
      if !reverse then CountNotBelow(m, c) else if CountAbove(m, c) > limit then CountAbove(m, c) - limit else 0
  }

  function PageEnd(m: seq<Row>, at: Option<(Row, bool)>, limit: nat): (k: nat)
    ensures PageStart(m, at, limit) <= k <= |m|
  {
    match at
    case None => Min(limit, |m|)
    case Some((c, reverse)) => if !reverse then Min(CountNotBelow(m, c) + limit, |m|) else CountAbove(m, c)
  }

  function Slice(m: seq<Row>, at: Option<(Row, bool)>, limit: nat): Page {
    Page(m[PageStart(m, at, limit)..PageEnd(m, at, limit)],
         PageEnd(m, at, limit) < |m| || (at.Some? && at.value.1),
         PageStart(m, at, limit) > 0 || (at.Some? && !at.value.1))
  }

  /**
   The handler. Its page is a slice of the matching rows: at most `limit` rows of the customer, latest first, each with
   the attributes that were asked for. Empty strings ask for nothing, and neither does `false`.
   */
  method FindMany(
    rows: seq<Row>, customer: nat, f: Filters, like: (string, string) -> bool, limit: nat, cursor: Option<Cursor>)
    returns (page: Page)
    requires Table(rows)
    ensures page == Slice(Matching(rows, customer, f, like), Located(rows, customer, cursor), limit)
    ensures |page.payload| <= limit && forall r :: r in page.payload ==> r in rows && r.customer == customer
    ensures f.blockchain.Some? && f.blockchain.value != "" ==>
              forall r :: r in page.payload ==> r.blockchain == f.blockchain.value
    ensures f.url.Some? && f.url.value != "" ==> forall r :: r in page.payload ==> like(r.url, f.url.value)
    ensures f.isActive == Some(true) ==> forall r :: r in page.payload ==> r.isActive
    ensures forall i, j :: 0 <= i < j < |page.payload| ==>
              page.payload[i].createdAt > page.payload[j].createdAt
              || (page.payload[i].createdAt == page.payload[j].createdAt && page.payload[i].id > page.payload[j].id)
    ensures forall c :: c in rows && c.customer == customer && cursor.Some? && cursor.value.id == c.id ==>
              OnOneSide(page.payload, c, cursor.value.reverse)
    ensures cursor.Some? && (forall c :: c in rows && c.customer == customer ==> c.id != cursor.value.id) ==>
              page == Slice(Matching(rows, customer, f, like), None, limit)
  {
    CursorRow(rows, customer, f, like, limit, cursor);
    var at: Option<(Row, bool)> := None;
    if cursor.Some? {
      var webhook := FindById(rows, customer, cursor.value.id);
      if webhook.Some? {
        at := Some((webhook.value, cursor.value.reverse));
      }
    }
    var result := Query(rows, customer, f, like, at, limit);
    SliceCases(Matching(rows, customer, f, like), at, limit);
    SliceOfMatching(rows, customer, f, like, at, limit);
    page := PageFrom(result, Candidates(Matching(rows, customer, f, like), at), at, limit);
  }

  /** The rows of the query, in the direction of the cursor and at most one more than the page holds. */
  function Read(candidates: seq<Row>, reverse: bool, limit: nat): seq<Row> {
    var all := if reverse then Reverse(candidates) else candidates;
    if |all| > limit + 1 then all[..limit + 1] else all
  }

  method Query(
    rows: seq<Row>, customer: nat, f: Filters, like: (string, string) -> bool, at: Option<(Row, bool)>, limit: nat)
    returns (result: seq<Row>)
    requires Table(rows)
    ensures result == Read(Candidates(Matching(rows, customer, f, like), at), at.Some? && at.value.1, limit)
  {
    SelectExact(rows, customer, f, like, at);
    result := Select(rows, customer, f, like, at);
    if at.Some? && at.value.1 {
      result := Reverse(result);
    }
    if |result| > limit + 1 {
      result := result[..limit + 1];
    }
  }

  /** What the handler makes of the rows: it drops the additional one, and puts them in descending order. */
  method PageFrom(rows: seq<Row>, ghost candidates: seq<Row>, at: Option<(Row, bool)>, limit: nat) returns (page: Page)
    requires rows == Read(candidates, at.Some? && at.value.1, limit)
    ensures page == CandidatePage(candidates, at, limit)
  {
    var result := rows;
    var reverse := at.Some? && at.value.1;
    var isFirstPage := at.None?;
    if |result| > limit {
      CutOff(candidates, reverse, limit);
      result := result[..|result| - 1];
      if reverse {
        result := Reverse(result);
      }
      return Page(result, true, !isFirstPage);
    }
    if reverse {
      assert Reverse(Reverse(candidates)) == candidates;
      result := Reverse(result);
    }
    return Page(result, if isFirstPage then false else reverse, if isFirstPage then false else !reverse);
  }

  /** Reading a list, backwards or not, cutting it off and putting it in order again leaves its near end. */
  lemma CutOff(candidates: seq<Row>, reverse: bool, limit: nat)
    requires |candidates| > limit
    ensures var read := Read(candidates, reverse, limit);
            (if reverse then Reverse(read[..|read| - 1]) else read[..|read| - 1])
            == if reverse then candidates[|candidates| - limit..] else candidates[..limit]
  {
    var all := if reverse then Reverse(candidates) else candidates;
    var read := Read(candidates, reverse, limit);
    assert read[..|read| - 1] == all[..limit];
    if reverse {
      forall i | 0 <= i < limit ensures Reverse(all[..limit])[i] == candidates[|candidates| - limit + i] {
        assert Reverse(all[..limit])[i] == all[limit - 1 - i];
      }
    }
  }

  /** A page in terms of the candidates that the database has for it. */
  ghost function CandidatePage(c: seq<Row>, at: Option<(Row, bool)>, limit: nat): Page {
    var reverse := at.Some? && at.value.1;
    if |c| > limit then Page(if reverse then c[|c| - limit..] else c[..limit], true, at.Some?)
    else Page(c, reverse, at.Some? && !reverse)
  }

  lemma SliceCases(m: seq<Row>, at: Option<(Row, bool)>, limit: nat)
    ensures Slice(m, at, limit) == CandidatePage(Candidates(m, at), at, limit)
  {
  }

  // ----- What the database answers -----

  lemma {:induction false} MatchingOrdered(rows: seq<Row>, customer: nat, f: Filters, like: (string, string) -> bool)
    requires Ordered(rows)
    ensures Ordered(Matching(rows, customer, f, like))
    ensures forall r :: r in Matching(rows, customer, f, like) <==> r in rows && Matches(r, customer, f, like)
  {
    if rows != [] {
      HeadAbove(rows);
      MatchingOrdered(rows[1..], customer, f, like);
      assert forall r :: r in rows <==> r == rows[0] || r in rows[1..];
    }
  }

  lemma SliceOfMatching(
    rows: seq<Row>, customer: nat, f: Filters, like: (string, string) -> bool, at: Option<(Row, bool)>, limit: nat)
    requires Ordered(rows)
    ensures var payload := Slice(Matching(rows, customer, f, like), at, limit).payload;
            && |payload| <= limit && Ordered(payload)
            && forall r :: r in payload ==> r in rows && Matches(r, customer, f, like)
  {
    MatchingOrdered(rows, customer, f, like);
  }

  /** All rows come before the cursor's row, or all of them behind it. */
  ghost predicate OnOneSide(payload: seq<Row>, c: Row, reverse: bool) {
    forall r :: r in payload ==>
      if reverse then r.createdAt > c.createdAt || (r.createdAt == c.createdAt && r.id > c.id)
      else r.createdAt < c.createdAt || (r.createdAt == c.createdAt && r.id < c.id)
  }

  /** A cursor stands for the customer's row with its id; a cursor without such a row counts for nothing. */
  lemma CursorRow(
    rows: seq<Row>, customer: nat, f: Filters, like: (string, string) -> bool, limit: nat, cursor: Option<Cursor>)
    requires Table(rows)
    ensures var page := Slice(Matching(rows, customer, f, like), Located(rows, customer, cursor), limit);
            && (forall c :: c in rows && c.customer == customer && cursor.Some? && cursor.value.id == c.id ==>
                  OnOneSide(page.payload, c, cursor.value.reverse))
            && (cursor.Some? && (forall c :: c in rows && c.customer == customer ==> c.id != cursor.value.id) ==>
                  page == Slice(Matching(rows, customer, f, like), None, limit))
  {
    if cursor.Some? {
      FoundRow(rows, customer, cursor.value.id);
      var page := Slice(Matching(rows, customer, f, like), Located(rows, customer, cursor), limit);
      forall c | c in rows && c.customer == customer && cursor.value.id == c.id
        ensures OnOneSide(page.payload, c, cursor.value.reverse)
      {
        FindsRow(rows, customer, c);
        MatchingOrdered(rows, customer, f, like);
        BeyondCursor(Matching(rows, customer, f, like), c, cursor.value.reverse, limit);
      }
    }
  }

  lemma {:induction false} FoundRow(rows: seq<Row>, customer: nat, id: nat)
    ensures var r := FindById(rows, customer, id); r.Some? ==> r.value in rows && r.value.customer == customer && r.value.id == id
  {
    if rows != [] && !(rows[0].customer == customer && rows[0].id == id) {
      FoundRow(rows[1..], customer, id);
    }
  }

  lemma BeyondCursor(m: seq<Row>, c: Row, reverse: bool, limit: nat)
    requires Ordered(m)
    ensures OnOneSide(Slice(m, Some((c, reverse)), limit).payload, c, reverse)
  {
    CountedRows(m, c);
    var payload := Slice(m, Some((c, reverse)), limit).payload;
    forall r | r in payload ensures if reverse then Above(r, c) else Above(c, r) {
      var i :| 0 <= i < |payload| && payload[i] == r;
      assert r == m[PageStart(m, Some((c, reverse)), limit) + i];
    }
  }

  lemma {:induction false} CountedRows(m: seq<Row>, c: Row)
    requires Ordered(m)
    ensures forall i :: 0 <= i < CountAbove(m, c) ==> Above(m[i], c)
    ensures forall i :: CountNotBelow(m, c) <= i < |m| ==> Above(c, m[i])
  {
    if m != [] {
      HeadAbove(m);
      CountedRows(m[1..], c);
      forall i | CountNotBelow(m, c) <= i < |m| ensures Above(c, m[i]) {
        if i > 0 {
          assert m[i] == m[1..][i - 1] && m[i] in m[1..];
        }
      }
      forall i | 0 <= i < CountAbove(m, c) ensures Above(m[i], c) {
        if i > 0 {
          assert m[i] == m[1..][i - 1];
        }
      }
    }
  }

  lemma HeadAbove(m: seq<Row>)
    requires Ordered(m) && m != []
    ensures Ordered(m[1..]) && forall r :: r in m[1..] ==> Above(m[0], r)
  {
    forall r | r in m[1..] ensures Above(m[0], r) {
      var i :| 0 <= i < |m[1..]| && m[1..][i] == r;
      assert m[i + 1] == r;
    }
  }

  /** The matching rows the cursor leaves, in descending order. */
  function Candidates(m: seq<Row>, at: Option<(Row, bool)>): seq<Row> {
    match at
    case None => m
    case Some((c, reverse)) => if reverse then m[..CountAbove(m, c)] else m[CountNotBelow(m, c)..]
  }

  /** A row in front of the others joins the candidates when the cursor lets it through. */
  lemma CandidatesCons(r: Row, m: seq<Row>, at: Option<(Row, bool)>)
    requires forall x :: x in m ==> Above(r, x)
    ensures Candidates([r] + m, at) == (if Beyond(r, at) then [r] else []) + Candidates(m, at)
  {
    assert ([r] + m)[1..] == m;
    if at.Some? {
      var c := at.value.0;
      if at.value.1 {
        if !Above(r, c) && m != [] {
          assert m[0] in m;
        }
      } else if Above(c, r) && m != [] {
        assert m[0] in m;
        assert CountNotBelow(m, c) == 0;
      }
    }
  }

  /** What the database answers without a limit: a front or a rest of the matching rows. */
  lemma {:induction false} SelectExact(
    rows: seq<Row>, customer: nat, f: Filters, like: (string, string) -> bool, at: Option<(Row, bool)>)
    requires Ordered(rows)
    ensures Select(rows, customer, f, like, at) == Candidates(Matching(rows, customer, f, like), at)
  {
    if rows != [] {
      HeadAbove(rows);
      SelectExact(rows[1..], customer, f, like, at);
      MatchingOrdered(rows[1..], customer, f, like);
      var rest := Matching(rows[1..], customer, f, like);
      if Matches(rows[0], customer, f, like) {
        assert Matching(rows, customer, f, like) == [rows[0]] + rest;
        CandidatesCons(rows[0], rest, at);
      } else {
        assert Matching(rows, customer, f, like) == rest;
      }
    }
  }

  // ----- Following the pages -----

  /** What the handler answers. */
  function Answer(
    rows: seq<Row>, customer: nat, f: Filters, like: (string, string) -> bool, limit: nat, cursor: Option<Cursor>): Page
  {
    Slice(Matching(rows, customer, f, like), Located(rows, customer, cursor), limit)
  }

  /** The cursor of the next page and of the previous one; a page without rows leads back to the first page. */
  function NextCursor(page: Page): Option<Cursor> {
    if page.payload == [] then None else Some(Cursor(page.payload[|page.payload| - 1].id, false))
  }

  function PrevCursor(page: Page): Option<Cursor> {
    if page.payload == [] then None else Some(Cursor(page.payload[0].id, true))
  }

  lemma {:induction false} CountAt(m: seq<Row>, i: nat)
    requires Ordered(m) && i < |m|
    ensures CountAbove(m, m[i]) == i && CountNotBelow(m, m[i]) == i + 1
  {
    HeadAbove(m);
    if i > 0 {
      assert m[i] == m[1..][i - 1];
      assert m[i] in m[1..];
      CountAt(m[1..], i - 1);
    } else if |m| > 1 {
      assert m[1] == m[1..][0];
      assert Above(m[0], m[1]);
    }
  }

  lemma {:induction false} FindsRow(rows: seq<Row>, customer: nat, r: Row)
    requires r in rows && r.customer == customer
    requires forall i, j :: 0 <= i < j < |rows| ==> rows[i].id != rows[j].id
    ensures FindById(rows, customer, r.id) == Some(r)
  {
    if rows[0] != r {
      assert r in rows[1..];
      var j :| 0 <= j < |rows[1..]| && rows[1..][j] == r;
      assert rows[j + 1] == r;
      FindsRow(rows[1..], customer, r);
    }
  }

  /** A cursor at a matching row is found, and splits the matching rows at that row. */
  lemma CursorAt(
    rows: seq<Row>, customer: nat, f: Filters, like: (string, string) -> bool, i: nat, reverse: bool)
    requires Table(rows) && i < |Matching(rows, customer, f, like)|
    ensures var m := Matching(rows, customer, f, like);
            && Located(rows, customer, Some(Cursor(m[i].id, reverse))) == Some((m[i], reverse))
            && CountAbove(m, m[i]) == i && CountNotBelow(m, m[i]) == i + 1
  {
    var m := Matching(rows, customer, f, like);
    MatchingOrdered(rows, customer, f, like);
    assert m[i] in m;
    FindsRow(rows, customer, m[i]);
    CountAt(m, i);
  }

  /** The next page begins where a page ends. */
  lemma NextPageFollows(
    rows: seq<Row>, customer: nat, f: Filters, like: (string, string) -> bool, limit: nat, cursor: Option<Cursor>)
    requires Table(rows) && limit >= 1 && (cursor.Some? ==> !cursor.value.reverse)
    requires Answer(rows, customer, f, like, limit, cursor).hasNext
    ensures var m := Matching(rows, customer, f, like);
            var at := Located(rows, customer, cursor);
            var page := Answer(rows, customer, f, like, limit, cursor);
            var next := Located(rows, customer, NextCursor(page));
            && PageEnd(m, at, limit) == PageStart(m, at, limit) + limit < |m|
            && next.Some? && !next.value.1
            && PageStart(m, next, limit) == PageEnd(m, at, limit)
  {
    var m := Matching(rows, customer, f, like);
    var at := Located(rows, customer, cursor);
    var e := PageEnd(m, at, limit);
    assert e < |m| && e == PageStart(m, at, limit) + limit;
    CursorAt(rows, customer, f, like, e - 1, false);
    var page := Answer(rows, customer, f, like, limit, cursor);
    assert page.payload[|page.payload| - 1] == m[e - 1];
  }

  /**
   On a table that does not change, following the next pages from the first one until there is none comes to an end and
   visits, each exactly once and latest first, all rows of the customer that have the attributes that were asked for,
   and no others.
   */
  method FollowNext(rows: seq<Row>, customer: nat, f: Filters, like: (string, string) -> bool, limit: nat)
    returns (visited: seq<Row>)
    requires Table(rows) && limit >= 1
    ensures visited == Matching(rows, customer, f, like)
    ensures Ordered(visited) && forall i, j :: 0 <= i < j < |visited| ==> visited[i] != visited[j]
    ensures forall r :: r in visited ==> r in rows && r.customer == customer
    ensures forall r :: r in visited && f.blockchain.Some? && f.blockchain.value != "" ==> r.blockchain == f.blockchain.value
    ensures forall r :: r in visited && f.url.Some? && f.url.value != "" ==> like(r.url, f.url.value)
    ensures forall r :: r in visited && f.isActive == Some(true) ==> r.isActive
    ensures forall r :: r in rows && r.customer == customer
                          && (f.blockchain.Some? && f.blockchain.value != "" ==> r.blockchain == f.blockchain.value)
                          && (f.url.Some? && f.url.value != "" ==> like(r.url, f.url.value))
                          && (f.isActive == Some(true) ==> r.isActive)
                        ==> r in visited
    ensures f == Filters(None, None, None) ==> forall r :: r in rows && r.customer == customer ==> r in visited
  {
    ghost var m := Matching(rows, customer, f, like);
    var cursor: Option<Cursor> := None;
    var page := FindMany(rows, customer, f, like, limit, cursor);
    visited := page.payload;
    while page.hasNext
      invariant cursor.Some? ==> !cursor.value.reverse
      invariant page == Answer(rows, customer, f, like, limit, cursor)
      invariant visited == m[..PageEnd(m, Located(rows, customer, cursor), limit)]
      decreases |m| - |visited|
    {
      OnePageMore(rows, customer, f, like, limit, cursor);
      cursor := NextCursor(page);
      page := FindMany(rows, customer, f, like, limit, cursor);
      visited := visited + page.payload;
    }
    MatchingOrdered(rows, customer, f, like);
  }

  lemma OnePageMore(
    rows: seq<Row>, customer: nat, f: Filters, like: (string, string) -> bool, limit: nat, cursor: Option<Cursor>)
    requires Table(rows) && limit >= 1 && (cursor.Some? ==> !cursor.value.reverse)
    requires Answer(rows, customer, f, like, limit, cursor).hasNext
    ensures var m := Matching(rows, customer, f, like);
            var next := NextCursor(Answer(rows, customer, f, like, limit, cursor));
            var before, after := PageEnd(m, Located(rows, customer, cursor), limit), PageEnd(m, Located(rows, customer, next), limit);
            && next.Some? && !next.value.reverse && before < after
            && m[..before] + Answer(rows, customer, f, like, limit, next).payload == m[..after]
  {
    NextPageFollows(rows, customer, f, like, limit, cursor);
  }

  /**
   Stepping forward and back again returns the rows of the page one came from. Its flags come back, too, exactly
   when its hasPrev was right.
   */
  lemma ForwardThenBack(
    rows: seq<Row>, customer: nat, f: Filters, like: (string, string) -> bool, limit: nat, cursor: Option<Cursor>)
    requires Table(rows) && limit >= 1 && (cursor.Some? ==> !cursor.value.reverse)
    requires Answer(rows, customer, f, like, limit, cursor).hasNext
    ensures var m := Matching(rows, customer, f, like);
            var page := Answer(rows, customer, f, like, limit, cursor);
            var next := Answer(rows, customer, f, like, limit, NextCursor(page));
            var back := Answer(rows, customer, f, like, limit, PrevCursor(next));
            && next.hasPrev
            && back.payload == page.payload && back.hasNext
            && (back == page <==> (page.hasPrev <==> PageStart(m, Located(rows, customer, cursor), limit) > 0))
  {
    var m := Matching(rows, customer, f, like);
    var at := Located(rows, customer, cursor);
    var page := Answer(rows, customer, f, like, limit, cursor);
    NextPageFollows(rows, customer, f, like, limit, cursor);
    var e := PageEnd(m, at, limit);
    var next := Answer(rows, customer, f, like, limit, NextCursor(page));
    assert next.payload[0] == m[e];
    CursorAt(rows, customer, f, like, e, true);
  }

  /**
   The flags are exact, that is, they say whether matching rows lie behind or in front of the page, for a first
   page, and otherwise exactly when some matching row lies on the far side of the cursor, the cursor's own row
   included. In particular they are exact when the cursor's row matches the filters.
   */
  lemma FlagsExactIff(
    rows: seq<Row>, customer: nat, f: Filters, like: (string, string) -> bool, limit: nat, cursor: Option<Cursor>)
    requires Table(rows)
    ensures var m := Matching(rows, customer, f, like);
            var at := Located(rows, customer, cursor);
            var page := Answer(rows, customer, f, like, limit, cursor);
            var exact := (page.hasNext <==> PageEnd(m, at, limit) < |m|)
                         && (page.hasPrev <==> PageStart(m, at, limit) > 0);
            && (exact <==> at.None? || exists r :: r in m && if at.value.1 then !Above(r, at.value.0) else !Above(at.value.0, r))
            && (at.Some? && at.value.0 in m ==> exact)
  {
    var m := Matching(rows, customer, f, like);
    var at := Located(rows, customer, cursor);
    MatchingOrdered(rows, customer, f, like);
    if at.Some? {
      var c := at.value.0;
      CountsExact(m, c);
      if c in m {
        assert !Above(c, c);
      }
    }
  }

  lemma {:induction false} CountsExact(m: seq<Row>, c: Row)
    requires Ordered(m)
    ensures CountAbove(m, c) < |m| <==> exists r :: r in m && !Above(r, c)
    ensures CountNotBelow(m, c) > 0 <==> exists r :: r in m && !Above(c, r)
  {
    if m != [] {
      HeadAbove(m);
      assert m[0] in m;
      assert forall r :: r in m <==> r == m[0] || r in m[1..];
      CountsExact(m[1..], c);
    }
  }

  /** Asking for inactive webhooks does not filter: it answers like not asking at all. */
  lemma {:induction false} InactiveIsIgnored(
    rows: seq<Row>, customer: nat, f: Filters, like: (string, string) -> bool, limit: nat, cursor: Option<Cursor>)
    requires f.isActive == Some(false)
    ensures Answer(rows, customer, f, like, limit, cursor)
            == Answer(rows, customer, f.(isActive := None), like, limit, cursor)
  {
    SameMatching(rows, customer, f, f.(isActive := None), like);
  }

  lemma {:induction false} SameMatching(
    rows: seq<Row>, customer: nat, f: Filters, f': Filters, like: (string, string) -> bool)
    requires forall r :: Matches(r, customer, f, like) <==> Matches(r, customer, f', like)
    ensures Matching(rows, customer, f, like) == Matching(rows, customer, f', like)
  {
    if rows != [] {
      SameMatching(rows[1..], customer, f, f', like);
    }
  }
}
