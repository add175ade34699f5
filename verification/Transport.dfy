/** Listing transport requests page by page (adt/transport.go, adt/types.go). */
module Transport {
  import opened Text
  import opened QueryWrap
  import opened AbapSql
  import opened DataPreview
  import opened TransportQuery
  import opened Wrappers

  // ---------------------------------------------------------------------------
  // Pages
  // ---------------------------------------------------------------------------

  /** A row of E070; parent is STRKORR, which is set on tasks. */
  datatype Row = Row(number: string, owner: string, status: string, date: string, time: string, parent: string)

  datatype Request = Request(number: string, owner: string, state: TransportState, rawStatus: string)

  datatype Page = Page(requests: seq<Request>, next: string)

  datatype Answer = Rows(rows: seq<Row>) | QueryFailed

  function CursorOf(row: Row): Cursor { Cursor(row.date, row.time, row.number) }

  function RequestOf(row: Row): Request { Request(row.number, row.owner, StateOf(row.status), row.status) }

  /** The row, by column name. */
  function AsMap(row: Row): map<string, string> {
    map[TRKORR := row.number][AS4USER := row.owner][TRSTATUS := row.status]
       [AS4DATE := row.date][AS4TIME := row.time][STRKORR := row.parent]
  }

  lemma ColumnsOf(row: Row)
    ensures var m := AsMap(row);
            && TRKORR in m && AS4USER in m && TRSTATUS in m && AS4DATE in m && AS4TIME in m && STRKORR in m
            && m[TRKORR] == row.number && m[AS4USER] == row.owner && m[TRSTATUS] == row.status
            && m[AS4DATE] == row.date && m[AS4TIME] == row.time && m[STRKORR] == row.parent
  {
    assert |TRKORR| == 6 && |TRSTATUS| == 8 && STRKORR[0] == 'S' && AS4USER[3] == 'U' && AS4DATE[3] == 'D'
           && AS4TIME[3] == 'T';
    assert |AS4USER| == 7 && |AS4DATE| == 7 && |AS4TIME| == 7 && |STRKORR| == 7
           && AS4USER[0] == AS4DATE[0] == AS4TIME[0] == 'A';
  }

  predicate Selected(where: seq<Part>, row: Row, less: Order) {
    forall i | 0 <= i < |where| :: PartHolds(where[i], AsMap(row), less)
  }

  /** The requests the caller asked for: no tasks, of the user, in a state that passes. */
  predicate Passes(user: string, filter: Filter, row: Row) {
    row.parent == "" && (user == "" || row.owner == user) && Matches(filter, StateOf(row.status))
  }

  predicate Below(row: Row, after: Option<Cursor>, less: Order) {
    after.None? || LexLess(KeyOf(CursorOf(row)), KeyOf(after.value), less)
  }

  lemma EqMeans(column: string, value: string, row: map<string, string>, less: Order)
    requires column in row
    ensures PartHolds(Single(Cmp(column, false, Eq, value)), row, less) <==> row[column] == value
  {}

  /** The WHERE clause selects exactly the rows the caller asked for that come after the cursor. */
  lemma WhereMeans(user: string, filter: Filter, after: Option<Cursor>, row: Row, less: Order)
    ensures Selected(Where(user, filter, after), row, less) <==> Passes(user, filter, row) && Below(row, after, less)
  {
    var m := AsMap(row);
    ColumnsOf(row);
    EqMeans(STRKORR, "", m, less);
    EqMeans(AS4USER, user, m, less);
    if filter != All {
      StatusAgreesWithFilter(filter, m, less);
    }
    if after.Some? {
      CursorMeansBelow(after.value, m, less);
    }
    var parent := [Single(Cmp(STRKORR, false, Eq, ""))];
    SelectedBoth(parent, UserPart(user), row, less);
    SelectedBoth(parent + UserPart(user), StatusPart(filter), row, less);
    SelectedBoth(parent + UserPart(user) + StatusPart(filter), AfterPart(after), row, less);
    SelectedOne(parent, row, less);
    SelectedOne(UserPart(user), row, less);
    SelectedOne(StatusPart(filter), row, less);
    SelectedOne(AfterPart(after), row, less);
  }

  lemma SelectedBoth(a: seq<Part>, b: seq<Part>, row: Row, less: Order)
    ensures Selected(a + b, row, less) <==> Selected(a, row, less) && Selected(b, row, less)
  {
    var all := a + b;
    forall i | 0 <= i < |a| ensures all[i] == a[i] {}
    forall i | 0 <= i < |b| ensures all[|a| + i] == b[i] {}
  }

  lemma SelectedOne(a: seq<Part>, row: Row, less: Order)
    requires |a| <= 1
    ensures Selected(a, row, less) <==> a == [] || PartHolds(a[0], AsMap(row), less)
  {}

  datatype Read = Got(page: Page) | ReadFailed | BadSortKey

  function Shown(filter: Filter, row: Row): seq<Request> {
    if row.number != "" && Matches(filter, StateOf(row.status)) then [RequestOf(row)] else []
  }

  function AllShown(filter: Filter, rows: seq<Row>): seq<Request> {
    if rows == [] then [] else AllShown(filter, rows[..|rows| - 1]) + Shown(filter, rows[|rows| - 1])
  }

  function NextOf(rows: seq<Row>, limit: nat): string
    requires 0 < limit
  {
    if |rows| > limit then CursorText(CursorOf(rows[limit - 1])) else ""
  }

  /** The page read from an answer to a query for limit + 1 rows. */
  function ReadAnswer(answer: Answer, filter: Filter, limit: nat): Read
    requires 0 < limit
  {
    if answer.QueryFailed? then ReadFailed
    else if |answer.rows| > limit && ParseCursor(NextOf(answer.rows, limit)).None? then BadSortKey
    else Got(Page(AllShown(filter, Take(answer.rows, limit)), NextOf(answer.rows, limit)))
  }

  /** The row is shown: it has a number and its state passes. */
  predicate IsShown(filter: Filter, rows: seq<Row>, i: nat)
    requires i < |rows|
  {
    rows[i].number != "" && Matches(filter, StateOf(rows[i].status))
  }

  /** The requests are, in order, those of the rows at these places. */
  ghost predicate AreShown(requests: seq<Request>, filter: Filter, rows: seq<Row>, idx: seq<nat>) {
    && |idx| == |requests| && (forall k, l | 0 <= k < l < |idx| :: idx[k] < idx[l])
    && (forall i :: i in idx <==> 0 <= i < |rows| && IsShown(filter, rows, i))
    && forall k {:trigger idx[k]} | 0 <= k < |idx| :: idx[k] < |rows| && IsRequest(requests[k], rows[idx[k]])
  }

  predicate IsRequest(r: Request, row: Row) {
    r.number == row.number && r.owner == row.owner && r.rawStatus == row.status && r.state == StateOf(row.status)
  }

  lemma {:induction false} AllShownPicks(filter: Filter, rows: seq<Row>) returns (idx: seq<nat>)
    ensures AreShown(AllShown(filter, rows), filter, rows, idx)
  {
    if rows == [] {
      idx := [];
    } else {
      var n := |rows| - 1;
      idx := AllShownPicks(filter, rows[..n]);
      assert rows[..n] + [rows[n]] == rows;
      idx := ShownOneMore(AllShown(filter, rows[..n]), filter, rows[..n], rows[n], idx);
    }
  }

  lemma {:induction false} ShownBefore(filter: Filter, rows: seq<Row>, row: Row)
    ensures forall i | 0 <= i < |rows| :: IsShown(filter, rows + [row], i) == IsShown(filter, rows, i)
    ensures IsShown(filter, rows + [row], |rows|) <==> row.number != "" && Matches(filter, StateOf(row.status))
  {
    assert forall i | 0 <= i < |rows| :: (rows + [row])[i] == rows[i];
    assert (rows + [row])[|rows|] == row;
  }

  lemma {:induction false} ShownOneMore(requests: seq<Request>, filter: Filter, rows: seq<Row>, row: Row,
                                        idx: seq<nat>) returns (more: seq<nat>)
    requires AreShown(requests, filter, rows, idx)
    ensures AreShown(requests + Shown(filter, row), filter, rows + [row], more)
  {
    ShownBefore(filter, rows, row);
    if IsShown(filter, rows + [row], |rows|) {
      more := idx + [|rows|];
      OneIsShown(requests, filter, rows, row, idx);
    } else {
      more := idx;
      assert requests + Shown(filter, row) == requests;
      NoneIsShown(requests, filter, rows, row, idx);
    }
  }

  lemma {:induction false} NoneIsShown(requests: seq<Request>, filter: Filter, rows: seq<Row>, row: Row, idx: seq<nat>)
    requires AreShown(requests, filter, rows, idx) && !IsShown(filter, rows + [row], |rows|)
    ensures AreShown(requests, filter, rows + [row], idx)
  {
    ShownBefore(filter, rows, row);
    forall k {:trigger idx[k]} | 0 <= k < |idx| ensures IsRequest(requests[k], (rows + [row])[idx[k]]) {
      assert (rows + [row])[idx[k]] == rows[idx[k]];
    }
  }

  lemma {:induction false} OneIsShown(requests: seq<Request>, filter: Filter, rows: seq<Row>, row: Row, idx: seq<nat>)
    requires AreShown(requests, filter, rows, idx) && IsShown(filter, rows + [row], |rows|)
    ensures AreShown(requests + [RequestOf(row)], filter, rows + [row], idx + [|rows|])
  {
    ShownBefore(filter, rows, row);
    var more, all := idx + [|rows|], rows + [row];
    forall k {:trigger more[k]} | 0 <= k < |more|
      ensures more[k] < |all| && IsRequest((requests + [RequestOf(row)])[k], all[more[k]])
    {
      if k < |idx| {
        assert all[idx[k]] == rows[idx[k]];
      }
    }
    forall i ensures i in more <==> 0 <= i < |all| && IsShown(filter, all, i) {
      assert more[|idx|] == |rows|;
      assert i in more <==> i in idx || i == |rows|;
    }
  }

  /** What a page makes of any answer: the requests of the rows that pass, of the first limit ones, and a
      Next that is the cursor of the last of them exactly when there are more; a sort key that is no
      cursor refuses the page. */
  lemma {:induction false} ReadAnswerMeans(answer: Answer, filter: Filter, limit: nat) returns (idx: seq<nat>)
    requires 0 < limit
    ensures var r := ReadAnswer(answer, filter, limit);
            && (r.ReadFailed? <==> answer.QueryFailed?)
            && (r.BadSortKey? <==>
                  answer.Rows? && |answer.rows| > limit && !WellFormed(CursorOf(answer.rows[limit - 1])))
            && (r.Got? ==>
                  && answer.Rows? && AreShown(r.page.requests, filter, Take(answer.rows, limit), idx)
                  && (|answer.rows| <= limit ==> r.page.next == "")
                  && (|answer.rows| > limit ==> ParseCursor(r.page.next) == Some(CursorOf(answer.rows[limit - 1]))))
  {
    idx := [];
    if answer.Rows? {
      idx := AllShownPicks(filter, Take(answer.rows, limit));
      if |answer.rows| > limit {
        var c := CursorOf(answer.rows[limit - 1]);
        CursorRoundTrip(CursorText(c), c);
        ParsedIsWellFormed(c);
      }
    }
  }

  /** The rest of getTransportRequestsViaQuery. */
  method ReadPage(answer: Answer, filter: Filter, limit: nat) returns (r: Read)
    requires 0 < limit
    ensures r == ReadAnswer(answer, filter, limit)
  {
    if answer.QueryFailed? {
      return ReadFailed;
    }
    var rows := answer.rows;
    var next := "";
    if |rows| > limit {
      rows := rows[..limit];
      var last := rows[limit - 1];
      next := CursorText(CursorOf(last));
      if ParseCursor(next).None? {
        return BadSortKey;
      }
    }
    var requests := ShowRows(rows, filter);
    return Got(Page(requests, next));
  }

  method ShowRows(rows: seq<Row>, filter: Filter) returns (requests: seq<Request>)
    ensures requests == AllShown(filter, rows)
  {
    requests := [];
    for i := 0 to |rows|
      invariant requests == AllShown(filter, rows[..i])
    {
      assert rows[..i + 1][..i] == rows[..i];
      var tr := RequestOf(rows[i]);
      if tr.number != "" && Matches(filter, tr.state) {
        requests := requests + [tr];
      }
    }
    assert rows[..|rows|] == rows;
  }

  /** getTransportRequestsViaQuery, with the server's answer to the request it sends. */
  method ReadTransportRequests(user: string, filter: Filter, limit: nat, after: Option<Cursor>, answer: Answer)
    returns (r: Read, sent: Option<PreviewRequest>)
    requires 0 < limit && Checked(user, after)
    ensures sent == Submitted(QueryText(Where(user, filter, after)), limit + 1)
    ensures sent.Some? && (forall s4 :: Received(sent.value, s4) == Some(Where(user, filter, after)))
    ensures r == ReadAnswer(answer, filter, limit)
  {
    QueryArrives(user, filter, after, limit + 1, true);
    QueryArrives(user, filter, after, limit + 1, false);
    var query := E070Query(user, filter, after);
    var submission := RunQuery(query, limit + 1);
    if !submission.Sent? {
      return ReadFailed, None;
    }
    r := ReadPage(answer, filter, limit);
    sent := Some(submission.request);
  }

  // ---------------------------------------------------------------------------
  // Following Next
  // ---------------------------------------------------------------------------

  /** The rows of a table that a predicate holds of, in order. */
  function Keep(rows: seq<Row>, p: Row -> bool): seq<Row> {
    if rows == [] then [] else (if p(rows[0]) then [rows[0]] else []) + Keep(rows[1..], p)
  }

  /** A data preview with this table, which it keeps in the order the query names. */
  datatype Server = Server(table: seq<Row>, less: Order, s4: bool)

  /** It reads the live words of what it is sent, without long lines, as a query, and answers with
      the first rows that all parts of its WHERE clause select. */
  function Reply(server: Server, request: PreviewRequest): Answer {
    if HasLongLine(request.text) then QueryFailed else
    match Received(request, server.s4)
    case None => QueryFailed
    case Some(where) => Rows(Take(Keep(server.table, (row: Row) => Selected(where, row, server.less)), request.rows))
  }

  function PassingRows(table: seq<Row>, user: string, filter: Filter): seq<Row> {
    Keep(table, (row: Row) => Passes(user, filter, row))
  }

  /** Strictly descending sort keys, so no two are equal. */
  ghost predicate Descending(rows: seq<Row>, less: Order) {
    forall i, j {:trigger rows[i], rows[j]} | 0 <= i < j < |rows| ::
      LexLess(KeyOf(CursorOf(rows[j])), KeyOf(CursorOf(rows[i])), less)
  }

  /** What the pages rest on: an order of the database, unique keys, and sort keys in their format. */
  ghost predicate WellKept(rows: seq<Row>, less: Order) {
    StrictOrder(less) && Descending(rows, less)
    && forall i {:trigger rows[i]} | 0 <= i < |rows| :: WellFormed(CursorOf(rows[i]))
  }

  lemma {:induction false} KeepKept(rows: seq<Row>, p: Row -> bool, q: Row -> bool, both: Row -> bool)
    requires forall row {:trigger both(row)} :: both(row) <==> p(row) && q(row)
    ensures Keep(rows, both) == Keep(Keep(rows, p), q)
  {
    if rows != [] {
      KeepKept(rows[1..], p, q, both);
      if p(rows[0]) {
        assert ([rows[0]] + Keep(rows[1..], p))[1..] == Keep(rows[1..], p);
      } else {
        assert [] + Keep(rows[1..], p) == Keep(rows[1..], p);
      }
    }
  }

  lemma {:induction false} KeepTail(rows: seq<Row>, q: Row -> bool, from: nat)
    requires from <= |rows| && forall i {:trigger rows[i]} | 0 <= i < |rows| :: q(rows[i]) <==> from <= i
    ensures Keep(rows, q) == rows[from..]
  {
    if rows != [] {
      assert forall i | 0 <= i < |rows[1..]| :: rows[1..][i] == rows[i + 1];
      KeepTail(rows[1..], q, if from == 0 then 0 else from - 1);
      if from == 0 {
        assert [rows[0]] + rows[1..] == rows;
      }
    }
  }

  lemma {:induction false} KeepMembers(rows: seq<Row>, p: Row -> bool)
    ensures forall i {:trigger Keep(rows, p)[i]} | 0 <= i < |Keep(rows, p)| :: p(Keep(rows, p)[i])
  {
    if rows != [] {
      KeepMembers(rows[1..], p);
    }
  }

  /** The cursor after the first j rows. */
  function After(rows: seq<Row>, j: nat): Option<Cursor>
    requires j <= |rows|
  {
    if j == 0 then None else Some(CursorOf(rows[j - 1]))
  }

  lemma BelowExactlyBehind(rows: seq<Row>, less: Order, j: nat, i: nat)
    requires WellKept(rows, less) && j <= |rows| && i < |rows|
    ensures Below(rows[i], After(rows, j), less) <==> j <= i
  {
    if j > 0 {
      var a, b := KeyOf(CursorOf(rows[i])), KeyOf(CursorOf(rows[j - 1]));
      if i < j && LexLess(a, b, less) {
        if i < j - 1 {
          LexLessTransitive(a, b, a, less);
        }
        LexLessIrreflexive(a, less);
      }
    }
  }

  /** After the first j passing rows the server selects exactly the others. */
  lemma SelectsTheRest(table: seq<Row>, user: string, filter: Filter, less: Order, j: nat)
    requires WellKept(PassingRows(table, user, filter), less) && j <= |PassingRows(table, user, filter)|
    ensures var rows := PassingRows(table, user, filter);
            Keep(table, (row: Row) => Selected(Where(user, filter, After(rows, j)), row, less)) == rows[j..]
  {
    var rows := PassingRows(table, user, filter);
    var after := After(rows, j);
    var passes, below := (row: Row) => Passes(user, filter, row), (row: Row) => Below(row, after, less);
    var selected := (row: Row) => Selected(Where(user, filter, after), row, less);
    forall row ensures selected(row) <==> passes(row) && below(row) {
      WhereMeans(user, filter, after, row, less);
    }
    KeepKept(table, passes, below, selected);
    forall i | 0 <= i < |rows| ensures below(rows[i]) <==> j <= i {
      BelowExactlyBehind(rows, less, j, i);
    }
    KeepTail(rows, below, j);
  }

  function Requests(rows: seq<Row>): (rs: seq<Request>)
    ensures |rs| == |rows| && forall i | 0 <= i < |rows| :: rs[i] == RequestOf(rows[i])
  {
    seq(|rows|, i requires 0 <= i < |rows| => RequestOf(rows[i]))
  }

  lemma {:induction false} PassingAreShown(filter: Filter, rows: seq<Row>)
    requires forall i {:trigger rows[i]} | 0 <= i < |rows| ::
               rows[i].number != "" && Matches(filter, StateOf(rows[i].status))
    ensures AllShown(filter, rows) == Requests(rows)
  {
    if rows != [] {
      PassingAreShown(filter, rows[..|rows| - 1]);
      assert Requests(rows) == Requests(rows[..|rows| - 1]) + [RequestOf(rows[|rows| - 1])];
    }
  }

  function Min(a: nat, b: nat): nat { if a < b then a else b }

  /** The page after the first j rows of all the passing ones. */
  function PageFrom(rows: seq<Row>, limit: nat, j: nat): Page
    requires 0 < limit && j <= |rows|
  {
    Page(Requests(rows[j..Min(|rows|, j + limit)]),
         if j + limit < |rows| then CursorText(CursorOf(rows[j + limit - 1])) else "")
  }

  /** getTransportRequestsViaQuery: one row more than the page is asked for. */
  function PageAfter(server: Server, user: string, filter: Filter, limit: nat, after: Option<Cursor>): Read
    requires 0 < limit
  {
    match Submitted(QueryText(Where(user, filter, after)), limit + 1)
    case None => ReadFailed
    case Some(request) => ReadAnswer(Reply(server, request), filter, limit)
  }

  lemma {:induction false} PageIsNextRows(server: Server, user: string, filter: Filter, limit: nat, j: nat)
    requires 0 < limit && (user == "" || IsUserName(user))
    requires WellKept(PassingRows(server.table, user, filter), server.less)
             && j <= |PassingRows(server.table, user, filter)|
    ensures var rows := PassingRows(server.table, user, filter);
            PageAfter(server, user, filter, limit, After(rows, j)) == Got(PageFrom(rows, limit, j))
  {
    var rows := PassingRows(server.table, user, filter);
    PassingRowsPass(server.table, user, filter);
    SelectsTheRest(server.table, user, filter, server.less, j);
    AfterIsChecked(rows, server.less, j);
    AnswerToQuery(server, user, filter, limit, After(rows, j));
    PageOfRows(rows, Take(rows[j..], limit + 1), filter, limit, j);
  }

  lemma AfterIsChecked(rows: seq<Row>, less: Order, j: nat)
    requires WellKept(rows, less) && j <= |rows|
    ensures After(rows, j).Some? ==> WellFormed(After(rows, j).value)
  {}

  lemma PassingRowsPass(table: seq<Row>, user: string, filter: Filter)
    ensures var rows := PassingRows(table, user, filter);
            forall i {:trigger rows[i]} | 0 <= i < |rows| :: Matches(filter, StateOf(rows[i].status))
  {
    KeepMembers(table, (row: Row) => Passes(user, filter, row));
  }

  lemma {:induction false} AnswerToQuery(server: Server, user: string, filter: Filter, limit: nat,
                                         after: Option<Cursor>)
    requires 0 < limit && Checked(user, after)
    ensures PageAfter(server, user, filter, limit, after)
            == ReadAnswer(Rows(Take(Keep(server.table, (row: Row) =>
                                           Selected(Where(user, filter, after), row, server.less)), limit + 1)),
                          filter, limit)
  {
    QueryArrives(user, filter, after, limit + 1, server.s4);
  }

  lemma {:induction false} PageOfRows(rows: seq<Row>, served: seq<Row>, filter: Filter, limit: nat, j: nat)
    requires 0 < limit && j <= |rows| && served == Take(rows[j..], limit + 1)
    requires forall i {:trigger rows[i]} | 0 <= i < |rows| ::
               WellFormed(CursorOf(rows[i])) && Matches(filter, StateOf(rows[i].status))
    ensures ReadAnswer(Rows(served), filter, limit) == Got(PageFrom(rows, limit, j))
  {
    TakeAgain(rows, limit, j);
    ShownOfRows(rows, filter, j, Min(|rows|, j + limit));
    NextOfRows(rows, served, limit, j);
    AnswerRead(served, filter, limit, PageFrom(rows, limit, j));
  }

  lemma {:induction false} AnswerRead(served: seq<Row>, filter: Filter, limit: nat, page: Page)
    requires 0 < limit && (|served| > limit ==> ParseCursor(NextOf(served, limit)).Some?)
    requires AllShown(filter, Take(served, limit)) == page.requests && NextOf(served, limit) == page.next
    ensures ReadAnswer(Rows(served), filter, limit) == Got(page)
  {}

  lemma {:induction false} NextOfRows(rows: seq<Row>, served: seq<Row>, limit: nat, j: nat)
    requires 0 < limit && j <= |rows| && (|served| > limit <==> j + limit < |rows|)
    requires j + limit < |rows|
             ==> served[limit - 1] == rows[j + limit - 1] && WellFormed(CursorOf(rows[j + limit - 1]))
    ensures NextOf(served, limit) == if j + limit < |rows| then CursorText(CursorOf(rows[j + limit - 1])) else ""
    ensures |served| > limit ==> ParseCursor(NextOf(served, limit)).Some?
  {
    if j + limit < |rows| {
      CursorRoundTrip(CursorText(CursorOf(rows[j + limit - 1])), CursorOf(rows[j + limit - 1]));
    }
  }

  lemma {:induction false} ShownOfRows(rows: seq<Row>, filter: Filter, j: nat, k: nat)
    requires j <= k <= |rows|
    requires forall i {:trigger rows[i]} | 0 <= i < |rows| ::
               WellFormed(CursorOf(rows[i])) && Matches(filter, StateOf(rows[i].status))
    ensures AllShown(filter, rows[j..k]) == Requests(rows[j..k])
  {
    var shown := rows[j..k];
    forall i | 0 <= i < |shown| ensures shown[i].number != "" && Matches(filter, StateOf(shown[i].status)) {
      assert shown[i] == rows[j + i];
    }
    PassingAreShown(filter, shown);
  }

  lemma {:induction false} TakeAgain(rows: seq<Row>, limit: nat, j: nat)
    requires 0 < limit && j <= |rows|
    ensures var served := Take(rows[j..], limit + 1);
            && Take(served, limit) == rows[j..Min(|rows|, j + limit)]
            && (|served| > limit <==> j + limit < |rows|)
            && (j + limit < |rows| ==> served[limit - 1] == rows[j + limit - 1])
  {}

  type Reader = Option<Cursor> -> Read

  /** getTransportRequestsViaQuery for one user, filter and page size. */
  function PageReader(server: Server, user: string, filter: Filter, limit: nat): Reader
    requires 0 < limit
  {
    (after: Option<Cursor>) => PageAfter(server, user, filter, limit, after)
  }

  /** A caller that passes each page's Next back until it is empty or it stops. */
  ghost predicate Follows(pages: seq<Page>, read: Reader) {
    && pages != [] && read(None) == Got(pages[0])
    && forall i | 0 < i < |pages| :: LeadsTo(pages, i, read)
  }

  /** The second page is what reading on from the first one's Next gives. */
  ghost predicate Leads(page: Page, next: Page, read: Reader) {
    page.next != "" && ParseCursor(page.next).Some? && read(ParseCursor(page.next)) == Got(next)
  }

  ghost predicate LeadsTo(pages: seq<Page>, i: nat, read: Reader)
    requires 0 < i < |pages|
  {
    Leads(pages[i - 1], pages[i], read)
  }

  ghost predicate FollowsNext(pages: seq<Page>, server: Server, user: string, filter: Filter, limit: nat)
    requires 0 < limit
  {
    Follows(pages, PageReader(server, user, filter, limit))
  }

  /** The reader gives the page after the first j of these rows, for every j. */
  ghost predicate GivesPages(read: Reader, rows: seq<Row>, limit: nat) {
    && 0 < limit
    && forall j {:trigger PageFrom(rows, limit, j)} | 0 <= j <= |rows| ::
         read(After(rows, j)) == Got(PageFrom(rows, limit, j))
  }

  lemma {:induction false} ReaderGivesPages(server: Server, user: string, filter: Filter, limit: nat)
    requires 0 < limit && (user == "" || IsUserName(user))
    requires WellKept(PassingRows(server.table, user, filter), server.less)
    ensures GivesPages(PageReader(server, user, filter, limit), PassingRows(server.table, user, filter), limit)
  {
    var rows := PassingRows(server.table, user, filter);
    var read := PageReader(server, user, filter, limit);
    forall j {:trigger PageFrom(rows, limit, j)} | 0 <= j <= |rows|
      ensures read(After(rows, j)) == Got(PageFrom(rows, limit, j))
    {
      PageIsNextRows(server, user, filter, limit, j);
    }
  }

  /** i pages of limit rows. */
  function Times(i: nat, limit: nat): nat { if i == 0 then 0 else Times(i - 1, limit) + limit }

  lemma {:induction false} TimesIsProduct(i: nat, limit: nat)
    ensures Times(i, limit) == i * limit
  {
    if i > 0 {
      TimesIsProduct(i - 1, limit);
      assert (i - 1) * limit + limit == i * limit;
    }
  }

  /** The i-th page holds the rows after the first i pages, of which there are some. */
  predicate IsPageAt(page: Page, rows: seq<Row>, limit: nat, i: nat) {
    && 0 < limit && Times(i, limit) <= |rows| && (i > 0 ==> Times(i, limit) < |rows|)
    && page == PageFrom(rows, limit, Times(i, limit))
  }

  lemma {:induction false} FollowedPage(pages: seq<Page>, read: Reader, rows: seq<Row>, less: Order, limit: nat, i: nat)
    requires GivesPages(read, rows, limit) && WellKept(rows, less) && Follows(pages, read) && i < |pages|
    ensures IsPageAt(pages[i], rows, limit, i)
  {
    if i == 0 {
      assert After(rows, 0) == None && read(After(rows, 0)) == Got(PageFrom(rows, limit, 0));
    } else {
      FollowedPage(pages, read, rows, less, limit, i - 1);
      assert LeadsTo(pages, i, read);
      NextLeads(pages[i - 1], rows, less, limit, i - 1);
      assert read(After(rows, Times(i, limit))) == Got(PageFrom(rows, limit, Times(i, limit)));
    }
  }

  /** The Next of a page is the cursor after its rows. */
  lemma NextLeads(page: Page, rows: seq<Row>, less: Order, limit: nat, i: nat)
    requires WellKept(rows, less) && IsPageAt(page, rows, limit, i) && page.next != ""
    ensures Times(i + 1, limit) < |rows| && ParseCursor(page.next) == After(rows, Times(i + 1, limit))
  {
    var last := rows[Times(i + 1, limit) - 1];
    assert WellFormed(CursorOf(last));
    CursorRoundTrip(page.next, CursorOf(last));
  }

  lemma {:induction false} OneMoreFollows(pages: seq<Page>, page: Page, read: Reader)
    requires Follows(pages, read) && Leads(pages[|pages| - 1], page, read)
    ensures Follows(pages + [page], read)
  {
    var more := pages + [page];
    forall i | 0 < i < |more| ensures LeadsTo(more, i, read) {
      if i < |pages| {
        assert LeadsTo(pages, i, read) && more[i - 1] == pages[i - 1] && more[i] == pages[i];
      } else {
        assert more[i - 1] == pages[|pages| - 1] && more[i] == page;
      }
    }
  }

  /** As long as Next is not empty, the page of the rows behind it is there to be read. */
  lemma {:induction false} PageFollows(pages: seq<Page>, read: Reader, rows: seq<Row>, less: Order, limit: nat)
    requires GivesPages(read, rows, limit) && WellKept(rows, less)
    requires Follows(pages, read) && pages[|pages| - 1].next != ""
    ensures Times(|pages|, limit) < |rows| && Follows(pages + [PageFrom(rows, limit, Times(|pages|, limit))], read)
  {
    var n := |pages|;
    FollowedPage(pages, read, rows, less, limit, n - 1);
    NextLeads(pages[n - 1], rows, less, limit, n - 1);
    assert Leads(pages[n - 1], PageFrom(rows, limit, Times(n, limit)), read);
    OneMoreFollows(pages, PageFrom(rows, limit, Times(n, limit)), read);
  }

  lemma {:induction false} PagesEnd(pages: seq<Page>, read: Reader, rows: seq<Row>, less: Order, limit: nat)
    returns (all: seq<Page>)
    requires GivesPages(read, rows, limit) && WellKept(rows, less) && Follows(pages, read)
    ensures Follows(all, read) && pages <= all && all[|all| - 1].next == ""
    decreases |rows| - Times(|pages|, limit)
  {
    if pages[|pages| - 1].next == "" {
      all := pages;
    } else {
      PageFollows(pages, read, rows, less, limit);
      var more := pages + [PageFrom(rows, limit, Times(|pages|, limit))];
      assert |more| == |pages| + 1 && pages <= more;
      all := PagesEnd(more, read, rows, less, limit);
    }
  }

  lemma {:induction false} FirstFollows(read: Reader, rows: seq<Row>, limit: nat)
    requires GivesPages(read, rows, limit)
    ensures Follows([PageFrom(rows, limit, 0)], read)
  {
    assert After(rows, 0) == None && read(After(rows, 0)) == Got(PageFrom(rows, limit, 0));
  }

  lemma {:induction false} RunEnds(pages: seq<Page>, read: Reader, rows: seq<Row>, less: Order, limit: nat)
    returns (all: seq<Page>)
    requires GivesPages(read, rows, limit) && WellKept(rows, less) && (pages == [] || Follows(pages, read))
    ensures Follows(all, read) && pages <= all && all[|all| - 1].next == ""
  {
    if pages == [] {
      FirstFollows(read, rows, limit);
      all := PagesEnd([PageFrom(rows, limit, 0)], read, rows, less, limit);
    } else {
      all := PagesEnd(pages, read, rows, less, limit);
    }
  }

  /** However far a caller has come, it can go on until Next is empty. */
  lemma {:induction false} NextBecomesEmpty(pages: seq<Page>, server: Server, user: string, filter: Filter, limit: nat)
    returns (all: seq<Page>)
    requires 0 < limit && (user == "" || IsUserName(user))
    requires WellKept(PassingRows(server.table, user, filter), server.less)
    requires pages == [] || FollowsNext(pages, server, user, filter, limit)
    ensures FollowsNext(all, server, user, filter, limit) && pages <= all && all[|all| - 1].next == ""
  {
    ReaderGivesPages(server, user, filter, limit);
    all := RunEnds(pages, PageReader(server, user, filter, limit), PassingRows(server.table, user, filter),
                   server.less, limit);
  }

  /** As long as Next is not empty, reading on gives the rows behind it. */
  lemma {:induction false} NextPageFollows(pages: seq<Page>, server: Server, user: string, filter: Filter, limit: nat)
    requires 0 < limit && (user == "" || IsUserName(user))
    requires WellKept(PassingRows(server.table, user, filter), server.less)
    requires FollowsNext(pages, server, user, filter, limit) && pages[|pages| - 1].next != ""
    ensures var rows, n := PassingRows(server.table, user, filter), Times(|pages|, limit);
            n < |rows| && FollowsNext(pages + [PageFrom(rows, limit, n)], server, user, filter, limit)
  {
    ReaderGivesPages(server, user, filter, limit);
    PageFollows(pages, PageReader(server, user, filter, limit), PassingRows(server.table, user, filter), server.less,
                limit);
  }

  function RequestsOf(page: Page): seq<Request> { page.requests }

  lemma {:induction false} PagesTogether(pages: seq<Page>, rows: seq<Row>, limit: nat, n: nat)
    requires 0 < limit && n <= |pages|
             && forall i {:trigger pages[i]} | 0 <= i < |pages| :: IsPageAt(pages[i], rows, limit, i)
    ensures FlatMap(RequestsOf, pages[..n]) == Requests(rows[..Min(|rows|, Times(n, limit))])
  {
    if n == 0 {
      assert rows[..0] == [];
    } else {
      PagesTogether(pages, rows, limit, n - 1);
      PageJoined(pages, rows, limit, n - 1);
    }
  }

  lemma {:induction false} PageJoined(pages: seq<Page>, rows: seq<Row>, limit: nat, n: nat)
    requires n < |pages| && IsPageAt(pages[n], rows, limit, n)
    requires FlatMap(RequestsOf, pages[..n]) == Requests(rows[..Min(|rows|, Times(n, limit))])
    ensures FlatMap(RequestsOf, pages[..n + 1]) == Requests(rows[..Min(|rows|, Times(n + 1, limit))])
  {
    FlatMapCut(RequestsOf, pages, n);
    OneMorePage(pages[n], rows, limit, n);
  }

  lemma OneMorePage(page: Page, rows: seq<Row>, limit: nat, i: nat)
    requires IsPageAt(page, rows, limit, i)
    ensures Requests(rows[..Min(|rows|, Times(i, limit))]) + page.requests
            == Requests(rows[..Min(|rows|, Times(i + 1, limit))])
  {
    RequestsCut(rows, Times(i, limit), Min(|rows|, Times(i + 1, limit)));
  }

  lemma RequestsCut(rows: seq<Row>, j: nat, k: nat)
    requires j <= k <= |rows|
    ensures Requests(rows[..k]) == Requests(rows[..j]) + Requests(rows[j..k])
  {}

  lemma PageHolds(page: Page, rows: seq<Row>, limit: nat, i: nat)
    requires IsPageAt(page, rows, limit, i)
    ensures page.next == "" <==> Times(i + 1, limit) >= |rows|
    ensures page.next != "" ==> |page.requests| == limit
  {
    if Times(i + 1, limit) < |rows| {
      assert |page.next| >= 2;
    }
  }

  ghost predicate ArePages(pages: seq<Page>, rows: seq<Row>, limit: nat) {
    pages != [] && 0 < limit && forall i {:trigger pages[i]} | 0 <= i < |pages| :: IsPageAt(pages[i], rows, limit, i)
  }

  lemma PagesSeeEverything(pages: seq<Page>, rows: seq<Row>, limit: nat)
    requires ArePages(pages, rows, limit) && pages[|pages| - 1].next == ""
    ensures FlatMap(RequestsOf, pages) == Requests(rows)
  {
    var n := |pages|;
    PageHolds(pages[n - 1], rows, limit, n - 1);
    PagesTogether(pages, rows, limit, n);
    assert pages[..n] == pages && rows[..|rows|] == rows;
  }

  lemma PagesAreFull(pages: seq<Page>, rows: seq<Row>, limit: nat)
    requires ArePages(pages, rows, limit)
    ensures forall i {:trigger pages[i]} | 0 <= i < |pages| && pages[i].next != "" :: |pages[i].requests| == limit
    ensures pages[|pages| - 1].next == "" <==> |pages| * limit >= |rows|
  {
    forall i {:trigger pages[i]} | 0 <= i < |pages| && pages[i].next != "" ensures |pages[i].requests| == limit {
      PageHolds(pages[i], rows, limit, i);
    }
    PageHolds(pages[|pages| - 1], rows, limit, |pages| - 1);
    TimesIsProduct(|pages|, limit);
  }

  /** The main result. Over unchanging rows, a caller that follows Next until it is empty has seen
      every request that passes user and filter exactly once, in strictly descending order; every
      page but the last holds exactly limit of them; and Next is empty exactly when the pages so far
      have room for all. That it becomes empty is NextBecomesEmpty. */
  lemma {:induction false} FollowingNextSeesEverything(pages: seq<Page>, server: Server, user: string, filter: Filter,
                                                       limit: nat)
    requires 0 < limit && (user == "" || IsUserName(user))
             && WellKept(PassingRows(server.table, user, filter), server.less)
    requires FollowsNext(pages, server, user, filter, limit)
    ensures var rows := PassingRows(server.table, user, filter);
            && (pages[|pages| - 1].next == "" ==> FlatMap(RequestsOf, pages) == Requests(rows))
            && (pages[|pages| - 1].next == "" <==> |pages| * limit >= |rows|)
    ensures forall i {:trigger pages[i]} | 0 <= i < |pages| && pages[i].next != "" :: |pages[i].requests| == limit
  {
    var rows := PassingRows(server.table, user, filter);
    ReaderGivesPages(server, user, filter, limit);
    forall i {:trigger pages[i]} | 0 <= i < |pages| ensures IsPageAt(pages[i], rows, limit, i) {
      FollowedPage(pages, PageReader(server, user, filter, limit), rows, server.less, limit, i);
    }
    PagesAreFull(pages, rows, limit);
    if pages[|pages| - 1].next == "" {
      PagesSeeEverything(pages, rows, limit);
    }
  }
}
