/** The paginated export of one customizing table (adt/custexport/export.go).

    The server is a transcript: answers[k] is its reply to the k-th query. The contract says what
    holds for every transcript, and what the export is worth when the transcript is that of a
    server that reads the statements it is sent and evaluates them on a fixed table. */
module Export {
  import opened Text
  import opened QueryWrap
  import opened AbapSql
  import opened DataPreview
  import opened SentText
  import opened ExportQuery
  import opened Wrappers

  type Cells = seq<string>

  datatype Answer = Page(columns: seq<string>, rows: seq<Cells>) | QueryFailed

  datatype Export =
    | Done(columns: seq<string>, rows: seq<Cells>, pages: nat)
    | BadIdentifier
    | QueryError(page: nat)
    | NoKeyToPaginateOn(page: nat)
    | KeysMissing(page: nat)
    | NoProgress(page: nat)
    | StillReading

  /** What a query asks for: rows after these key values, or from the start. */
  type Query = Option<seq<string>>

  /** FilterNonMandtKeys. */
  method FilterNonMandtKeys(keys: seq<string>) returns (result: seq<string>)
    ensures result == NonMandt(keys)
  {
    result := [];
    for i := 0 to |keys|
      invariant NonMandt(keys) == result + NonMandt(keys[i..])
    {
      NonMandtStep(keys, i, result);
      if !IsClient(keys[i]) {
        result := result + [keys[i]];
      }
    }
  }

  lemma {:induction false} NonMandtStep(keys: seq<string>, i: nat, result: seq<string>)
    requires i < |keys|
    ensures result + NonMandt(keys[i..])
            == (if IsClient(keys[i]) then result else result + [keys[i]]) + NonMandt(keys[i + 1..])
  {
    assert keys[i..][1..] == keys[i + 1..] && keys[i..][0] == keys[i];
    assert result + ([keys[i]] + NonMandt(keys[i + 1..])) == (result + [keys[i]]) + NonMandt(keys[i + 1..]);
    assert [] + NonMandt(keys[i + 1..]) == NonMandt(keys[i + 1..]);
  }

  predicate IsClient(key: string) { Upper(key) == "MANDT" }

  function NonMandt(keys: seq<string>): (r: seq<string>)
    ensures forall k | k in r :: k in keys
  {
    if keys == [] then [] else (if IsClient(keys[0]) then [] else [keys[0]]) + NonMandt(keys[1..])
  }

  lemma {:induction false} NonMandtMembers(keys: seq<string>)
    ensures forall k :: k in NonMandt(keys) <==> k in keys && !IsClient(k)
  {
    if keys != [] {
      NonMandtMembers(keys[1..]);
    }
  }

  /** The column index of the program: a later column of the same name wins. */
  function ColumnIndex(columns: seq<string>, name: string): (r: Option<nat>)
    ensures r.Some? ==> r.value < |columns| && columns[r.value] == name
    ensures r.Some? <==> name in columns
  {
    if columns == [] then None
    else if columns[|columns| - 1] == name then Some(|columns| - 1)
    else ColumnIndex(columns[..|columns| - 1], name)
  }

  predicate HasValue(columns: seq<string>, key: string, row: Cells) {
    ColumnIndex(columns, key).Some? && ColumnIndex(columns, key).value < |row|
  }

  /** extractKeyValues: none when some key has no value in the row. */
  method ExtractKeyValues(columns: seq<string>, keys: seq<string>, row: Cells) returns (r: Option<seq<string>>)
    ensures r == KeyValues(columns, keys, row)
  {
    var colIndex: map<string, nat> := map[];
    for i := 0 to |columns|
      invariant forall name :: name in colIndex <==> ColumnIndex(columns[..i], name).Some?
      invariant forall name | name in colIndex :: ColumnIndex(columns[..i], name) == Some(colIndex[name])
    {
      assert columns[..i + 1][..i] == columns[..i];
      colIndex := colIndex[columns[i] := i];
    }
    assert columns[..|columns|] == columns;
    var values := [];
    for i := 0 to |keys|
      invariant |values| == i
      invariant forall j | 0 <= j < i ::
                  HasValue(columns, keys[j], row) && values[j] == row[ColumnIndex(columns, keys[j]).value]
    {
      if keys[i] !in colIndex || colIndex[keys[i]] >= |row| {
        assert !HasValue(columns, keys[i], row);
        return None;
      }
      values := values + [row[colIndex[keys[i]]]];
    }
    assert KeyValues(columns, keys, row).Some? && KeyValues(columns, keys, row).value == values;
    return Some(values);
  }

  function KeyValues(columns: seq<string>, keys: seq<string>, row: Cells): Option<seq<string>> {
    if forall i | 0 <= i < |keys| :: HasValue(columns, keys[i], row) then
      Some(seq(|keys|, i requires 0 <= i < |keys| => row[ColumnIndex(columns, keys[i]).value]))
    else None
  }

  // ---------------------------------------------------------------------------
  // A server with a fixed table
  // ---------------------------------------------------------------------------

  datatype Table = Table(columns: seq<string>, rows: seq<Cells>)

  /** The row as the database sees it: column name to value. */
  function AsMap(columns: seq<string>, row: Cells): (m: map<string, string>)
    requires |row| == |columns|
    ensures forall name :: name in m <==> name in columns
    ensures forall name | name in m ::
              ColumnIndex(columns, name).Some? && m[name] == row[ColumnIndex(columns, name).value]
  {
    map name | name in columns :: row[ColumnIndex(columns, name).value]
  }

  function Matching(table: Table, rows: seq<Cells>, cond: Condition, less: Order): seq<Cells>
    requires forall r | r in rows :: |r| == |table.columns|
  {
    if rows == [] then [] else
    (if cond == [] || Holds(cond, AsMap(table.columns, rows[0]), less) then [rows[0]] else [])
    + Matching(table, rows[1..], cond, less)
  }

  /** A data preview that has one table, kept in the order of its keys. */
  datatype Server = Server(name: string, table: Table, keys: seq<string>, less: Order, s4: bool)

  /** It cuts long lines, so it takes no text with one; it reads the live words of the others as a
      statement, and answers the ones about its table in its order with the first matching rows. */
  function Reply(server: Server, request: PreviewRequest): Answer
    requires forall r | r in server.table.rows :: |r| == |server.table.columns|
  {
    if HasLongLine(request.text) then QueryFailed else
    match Received(request, server.s4)
    case None => QueryFailed
    case Some(query) =>
      if query.table != server.name || query.orderBy != server.keys then QueryFailed
      else Serve(server.table, query.where, request.rows, server.less)
  }

  /** The first rows the condition selects, in the table's order. */
  function Serve(table: Table, cond: Condition, rows: nat, less: Order): Answer
    requires forall r | r in table.rows :: |r| == |table.columns|
  {
    Page(table.columns, Take(Matching(table, table.rows, cond, less), rows))
  }

  function KeyTuple(table: Table, keys: seq<string>, row: Cells): seq<string>
    requires |row| == |table.columns| && forall k | k in keys :: k in table.columns
  {
    Project(AsMap(table.columns, row), keys)
  }

  /** Every row has a cell for every column, and every key is a column. */
  predicate Shaped(table: Table, keys: seq<string>) {
    && (forall r | r in table.rows :: |r| == |table.columns|)
    && (forall k | k in keys :: k in table.columns)
  }

  /** The client columns among the keys. */
  function ClientKeys(keys: seq<string>): (r: seq<string>)
    ensures forall k | k in r :: k in keys
  {
    if keys == [] then [] else (if IsClient(keys[0]) then [keys[0]] else []) + ClientKeys(keys[1..])
  }

  /** The key values of the rows, in the table's order. */
  function KeyTuples(table: Table, keys: seq<string>): (ts: seq<seq<string>>)
    requires Shaped(table, keys)
    ensures |ts| == |table.rows|
    ensures forall i {:trigger ts[i]} | 0 <= i < |ts| :: ts[i] == KeyTuple(table, keys, table.rows[i])
  {
    seq(|table.rows|, i requires 0 <= i < |table.rows| => KeyTuple(table, keys, table.rows[i]))
  }

  ghost predicate Ascending(ts: seq<seq<string>>, less: Order) {
    forall i, j {:trigger ts[i], ts[j]} | 0 <= i < j < |ts| :: LexLess(ts[i], ts[j], less)
  }

  predicate Constant(ts: seq<seq<string>>) {
    forall i, j {:trigger ts[i], ts[j]} | 0 <= i < j < |ts| :: ts[i] == ts[j]
  }

  /** A table as the database holds it: rows in the ORDER BY order of all keys with no two rows of
      the same key, and one client only. */
  ghost predicate WellKept(table: Table, keys: seq<string>, less: Order) {
    && StrictOrder(less)
    && Shaped(table, keys)
    && Ascending(KeyTuples(table, keys), less)
    && Constant(KeyTuples(table, ClientKeys(keys)))
  }

  /** With a constant client, ordering by all keys is ordering by the keys besides the client. */
  lemma {:induction false} ClientDoesNotOrder(a: map<string, string>, b: map<string, string>, keys: seq<string>,
                                              less: Order)
    requires StrictOrder(less) && forall k | k in keys :: k in a && k in b
    requires Project(a, ClientKeys(keys)) == Project(b, ClientKeys(keys))
    ensures LexLess(Project(a, keys), Project(b, keys), less) <==>
            LexLess(Project(a, NonMandt(keys)), Project(b, NonMandt(keys)), less)
  {
    if keys != [] {
      var k, rest := keys[0], keys[1..];
      assert keys == [k] + rest && k in keys;
      ProjectCons(a, b, k, rest, less);
      if IsClient(k) {
        var cs := ClientKeys(keys);
        assert cs[0] == k && Project(a, cs)[0] == a[k] && Project(b, cs)[0] == b[k];
        assert Project(a, cs)[1..] == Project(a, ClientKeys(rest))
               && Project(b, cs)[1..] == Project(b, ClientKeys(rest));
        assert NonMandt(keys) == NonMandt(rest) && IrreflexiveAt(less, a[k]);
      } else {
        assert ClientKeys(keys) == ClientKeys(rest);
        ProjectCons(a, b, k, NonMandt(rest), less);
      }
      ClientDoesNotOrder(a, b, rest, less);
    }
  }

  lemma ProjectCons(a: map<string, string>, b: map<string, string>, k: string, rest: seq<string>, less: Order)
    requires k in a && k in b && forall r | r in rest :: r in a && r in b
    ensures LexLess(Project(a, [k] + rest), Project(b, [k] + rest), less) <==>
            less(a[k], b[k]) || (a[k] == b[k] && LexLess(Project(a, rest), Project(b, rest), less))
  {
    assert Project(a, [k] + rest)[1..] == Project(a, rest);
    assert Project(b, [k] + rest)[1..] == Project(b, rest);
  }

  /** The rows are in strictly ascending order of the keys ks. */
  ghost predicate Ordered(table: Table, ks: seq<string>, less: Order) {
    StrictOrder(less) && Shaped(table, ks) && Ascending(KeyTuples(table, ks), less)
  }

  /** A well-kept table is ordered by its keys besides the client. */
  lemma WellKeptIsOrdered(table: Table, keys: seq<string>, less: Order)
    requires WellKept(table, keys, less)
    ensures Ordered(table, NonMandt(keys), less)
  {
    var ts, cs, ks := KeyTuples(table, keys), KeyTuples(table, ClientKeys(keys)), KeyTuples(table, NonMandt(keys));
    forall i, j {:trigger ks[i], ks[j]} | 0 <= i < j < |ks|
      ensures LexLess(ks[i], ks[j], less)
    {
      assert LexLess(ts[i], ts[j], less) && cs[i] == cs[j];
      ClientDoesNotOrder(AsMap(table.columns, table.rows[i]), AsMap(table.columns, table.rows[j]), keys, less);
    }
  }

  /** Position in the table and key order agree. */
  lemma RowsInOrder(table: Table, ks: seq<string>, less: Order, i: nat, j: nat)
    requires Ordered(table, ks, less) && i < |table.rows| && j < |table.rows|
    ensures LexLess(KeyTuple(table, ks, table.rows[i]), KeyTuple(table, ks, table.rows[j]), less) <==> i < j
  {
    var ts := KeyTuples(table, ks);
    if i >= j && LexLess(ts[i], ts[j], less) {
      LexLessIrreflexive(ts[i], less);
      if i > j {
        LexLessTransitive(ts[i], ts[j], ts[i], less);
      }
      assert false;
    }
    assert i < j ==> LexLess(ts[i], ts[j], less);
  }

  /** The pagination condition after row at selects exactly the rows behind it. */
  lemma SelectsRowsBehind(table: Table, ks: seq<string>, keyTypes: map<string, string>, less: Order, at: nat, i: nat)
    requires Ordered(table, ks, less) && at < |table.rows| && i < |table.rows| && ks != []
    ensures var cond := PageCondition(ks, KeyTuple(table, ks, table.rows[at]), keyTypes);
            cond != [] && (Holds(cond, AsMap(table.columns, table.rows[i]), less) <==> at < i)
  {
    ChainMeansLexicographic(ks, KeyTuple(table, ks, table.rows[at]), keyTypes, Gt, AsMap(table.columns, table.rows[i]),
                            less);
    RowsInOrder(table, ks, less, at, i);
  }

  predicate Selects(table: Table, cond: Condition, less: Order, i: nat)
    requires i < |table.rows| && |table.rows[i]| == |table.columns|
  {
    cond == [] || Holds(cond, AsMap(table.columns, table.rows[i]), less)
  }

  predicate SelectsBehind(table: Table, cond: Condition, less: Order, at: nat)
    requires forall r | r in table.rows :: |r| == |table.columns|
  {
    forall i {:trigger Selects(table, cond, less, i)} | 0 <= i < |table.rows| ::
      Selects(table, cond, less, i) <==> at < i
  }

  lemma {:induction false} MatchingIsTail(table: Table, cond: Condition, less: Order, at: nat, from: nat)
    requires forall r | r in table.rows :: |r| == |table.columns|
    requires at < |table.rows| && from <= |table.rows| && SelectsBehind(table, cond, less, at)
    ensures Matching(table, table.rows[from..], cond, less) == table.rows[if from <= at then at + 1 else from..]
    decreases |table.rows| - from
  {
    if from < |table.rows| {
      MatchingIsTail(table, cond, less, at, from + 1);
      MatchingFrom(table, cond, less, at, from);
      FromHere(table.rows, from);
    }
  }

  lemma FromHere<T>(rows: seq<T>, from: nat)
    requires from < |rows|
    ensures rows[from..] == [rows[from]] + rows[from + 1..]
  {
  }

  lemma MatchingFrom(table: Table, cond: Condition, less: Order, at: nat, from: nat)
    requires forall r | r in table.rows :: |r| == |table.columns|
    requires from < |table.rows| && SelectsBehind(table, cond, less, at)
    ensures Matching(table, table.rows[from..], cond, less)
            == (if at < from then [table.rows[from]] else []) + Matching(table, table.rows[from + 1..], cond, less)
  {
    assert Selects(table, cond, less, from) <==> at < from;
    assert table.rows[from..][1..] == table.rows[from + 1..];
  }

  /** What a page of such a server holds: the rows behind the last one, up to a page. */
  lemma ServedPage(table: Table, ks: seq<string>, keyTypes: map<string, string>, less: Order, pageSize: nat, at: nat)
    requires Ordered(table, ks, less) && ks != [] && at < |table.rows|
    ensures Serve(table, PageCondition(ks, KeyTuple(table, ks, table.rows[at]), keyTypes), pageSize, less)
            == Page(table.columns, Take(table.rows[at + 1..], pageSize))
  {
    var cond := PageCondition(ks, KeyTuple(table, ks, table.rows[at]), keyTypes);
    forall i | 0 <= i < |table.rows|
      ensures Selects(table, cond, less, i) <==> at < i
    {
      SelectsRowsBehind(table, ks, keyTypes, less, at, i);
    }
    MatchingIsTail(table, cond, less, at, 0);
    assert table.rows[0..] == table.rows;
  }

  lemma {:induction false} MatchingAll(table: Table, rows: seq<Cells>, less: Order)
    requires forall r | r in rows :: |r| == |table.columns|
    ensures Matching(table, rows, [], less) == rows
  {
    if rows != [] {
      MatchingAll(table, rows[1..], less);
      assert rows == [rows[0]] + rows[1..];
    }
  }

  lemma KeyValuesOfServed(table: Table, keys: seq<string>, row: Cells)
    requires |row| == |table.columns| && forall k | k in keys :: k in table.columns
    ensures KeyValues(table.columns, keys, row) == Some(KeyTuple(table, keys, row))
  {
    var m := AsMap(table.columns, row);
    forall i | 0 <= i < |keys|
      ensures HasValue(table.columns, keys[i], row) && m[keys[i]] == row[ColumnIndex(table.columns, keys[i]).value]
    {
      assert keys[i] in keys;
    }
    assert KeyValues(table.columns, keys, row).value == KeyTuple(table, keys, row);
  }

  // ---------------------------------------------------------------------------
  // exportTable
  // ---------------------------------------------------------------------------

  /** The result, what the queries asked for, and the requests that were sent for them. */
  datatype Run = Run(result: Export, asked: seq<Query>, sent: seq<PreviewRequest>)

  /** The request for a query, if it can be sent. */
  type AskFn = Query -> Option<PreviewRequest>

  function ValuesOf(query: Query): seq<string> { if query.Some? then query.value else [] }

  function ConditionOf(keys: seq<string>, keyTypes: map<string, string>, query: Query): Condition {
    PageCondition(NonMandt(keys), ValuesOf(query), keyTypes)
  }

  function StatementOf(name: string, keys: seq<string>, keyTypes: map<string, string>, query: Query): string {
    StatementText(name, keys, ConditionOf(keys, keyTypes, query))
  }

  function Ask(name: string, keys: seq<string>, keyTypes: map<string, string>, pageSize: nat): AskFn {
    (query: Query) => Submitted(StatementOf(name, keys, keyTypes, query), pageSize)
  }

  /** What a page leads to: the end of the export, or the next query. */
  datatype Turn = Stop(result: Export) | GoOn(next: Query)

  function TurnAfter(columns: seq<string>, page: seq<Cells>, allRows: seq<Cells>, ks: seq<string>, pageSize: nat,
                     pages: nat, last: Query): Turn
    requires pageSize > 0
  {
    if |page| < pageSize then Stop(Done(columns, allRows, pages))
    else if ks == [] then Stop(NoKeyToPaginateOn(pages))
    else
      var next := KeyValues(columns, ks, page[|page| - 1]);
      if next.None? then Stop(KeysMissing(pages)) else if next == last then Stop(NoProgress(pages)) else GoOn(next)
  }

  /** The page loop from the k-th query on, which asks for the rows after last. */
  function ExportFrom(ask: AskFn, ks: seq<string>, pageSize: nat, answers: seq<Answer>, k: nat, last: Query,
                      columns: seq<string>): Run
    requires pageSize > 0 && k <= |answers|
    decreases |answers| - k
  {
    if ask(last).None? then Run(QueryError(k + 1), [], []) else
    var request := ask(last).value;
    if k == |answers| then Run(StillReading, [last], [request]) else
    match answers[k]
    case QueryFailed => Run(QueryError(k + 1), [last], [request])
    case Page(cols, rows) =>
      var columns' := if k == 0 then cols else columns;
      match TurnAfter(columns', rows, rows, ks, pageSize, k + 1, last)
      case Stop(result) => Run(result, [last], [request])
      case GoOn(next) => PrependAll(rows, [last], [request],
                                    ExportFrom(ask, ks, pageSize, answers, k + 1, next, columns'))
  }

  function PrependAll(rows: seq<Cells>, asked: seq<Query>, sent: seq<PreviewRequest>, run: Run): Run {
    Run(if run.result.Done? then run.result.(rows := rows + run.result.rows) else run.result, asked + run.asked,
        sent + run.sent)
  }

  /** The statement of a page; it is refused exactly when some name is not an identifier. */
  method BuildQuery(name: string, keys: seq<string>, paginateKeys: seq<string>, last: Query,
                    keyTypes: map<string, string>)
    returns (sql: Option<string>)
    requires paginateKeys == NonMandt(keys)
    ensures sql == if IsIdentifier(name) && AllIdentifiers(keys) then Some(StatementOf(name, keys, keyTypes, last))
                   else None
  {
    sql := BuildExportSQLTyped(name, keys, paginateKeys, ValuesOf(last), keyTypes);
  }

  /** exportTable. answers is the transcript of the server; sent lists the requests. */
  method ExportTable(name: string, keys: seq<string>, keyTypes: map<string, string>, pageSize: nat,
                     answers: seq<Answer>)
    returns (r: Export, sent: seq<PreviewRequest>, ghost asked: seq<Query>)
    requires pageSize > 0
    ensures if IsIdentifier(name) && AllIdentifiers(keys)
            then Run(r, asked, sent)
                 == ExportFrom(Ask(name, keys, keyTypes, pageSize), NonMandt(keys), pageSize, answers, 0, None, [])
            else r == BadIdentifier && sent == []
  {
    var paginateKeys := FilterNonMandtKeys(keys);
    var allRows: seq<Cells>, columns: seq<string> := [], [];
    var pages := 0;
    var lastValues: Query := None;
    asked, sent := [], [];
    ghost var ask := Ask(name, keys, keyTypes, pageSize);
    ghost var all := ExportFrom(ask, paginateKeys, pageSize, answers, 0, None, []);
    while true
      invariant pages <= |answers|
      invariant pages > 0 ==> IsIdentifier(name) && AllIdentifiers(keys)
      invariant pages == 0 ==> sent == []
      invariant Exporting(all, allRows, asked, sent, ask, paginateKeys, pageSize, answers, pages, lastValues, columns)
      decreases |answers| - pages
    {
      var sql := BuildQuery(name, keys, paginateKeys, lastValues, keyTypes);
      if sql.None? {
        return BadIdentifier, sent, asked;
      }
      var submission := RunQuery(sql.value, pageSize);
      assert if submission.Sent? then ask(lastValues) == Some(submission.request) else ask(lastValues).None?;
      if !submission.Sent? {
        ExportingStops(all, allRows, asked, sent, ask, paginateKeys, pageSize, answers, pages, lastValues, columns);
        return QueryError(pages + 1), sent, asked;
      }
      ghost var asked0, sent0, columns0 := asked, sent, columns;
      asked, sent := asked + [lastValues], sent + [submission.request];
      if pages == |answers| {
        ExportingStops(all, allRows, asked0, sent0, ask, paginateKeys, pageSize, answers, pages, lastValues, columns);
        return StillReading, sent, asked;
      }
      var answer := answers[pages];
      if answer.QueryFailed? {
        ExportingStops(all, allRows, asked0, sent0, ask, paginateKeys, pageSize, answers, pages, lastValues, columns);
        return QueryError(pages + 1), sent, asked;
      }
      pages := pages + 1;
      if pages == 1 {
        columns := answer.columns;
      }
      ghost var rows0 := allRows;
      allRows := allRows + answer.rows;
      var turn := EndOfPage(columns, answer.rows, allRows, paginateKeys, pageSize, pages, lastValues);
      ExportingTurns(all, rows0, asked0, sent0, ask, paginateKeys, pageSize, answers, pages - 1, lastValues, columns0,
                     turn);
      if turn.Stop? {
        return turn.result, sent, asked;
      }
      lastValues := turn.next;
    }
  }

  /** exportTable, from the end of a page to the next query. */
  method EndOfPage(columns: seq<string>, rows: seq<Cells>, allRows: seq<Cells>, paginateKeys: seq<string>,
                   pageSize: nat, pages: nat, lastValues: Query)
    returns (turn: Turn)
    requires pageSize > 0
    ensures turn == TurnAfter(columns, rows, allRows, paginateKeys, pageSize, pages, lastValues)
  {
    if |rows| < pageSize {
      return Stop(Done(columns, allRows, pages));
    }
    if |paginateKeys| == 0 {
      return Stop(NoKeyToPaginateOn(pages));
    }
    var lastRow := rows[|rows| - 1];
    var nextValues := ExtractKeyValues(columns, paginateKeys, lastRow);
    if nextValues.None? {
      return Stop(KeysMissing(pages));
    }
    if nextValues == lastValues {
      return Stop(NoProgress(pages));
    }
    return GoOn(nextValues);
  }

  /** With rows read and requests sent so far, going on with the k-th query comes to all. */
  ghost predicate Exporting(all: Run, rows: seq<Cells>, asked: seq<Query>, sent: seq<PreviewRequest>, ask: AskFn,
                            ks: seq<string>, pageSize: nat, answers: seq<Answer>, k: nat, last: Query,
                            columns: seq<string>)
  {
    pageSize > 0 && k <= |answers|
    && all == PrependAll(rows, asked, sent, ExportFrom(ask, ks, pageSize, answers, k, last, columns))
  }

  /** One pass of the loop that reads no page. */
  lemma ExportingStops(all: Run, rows: seq<Cells>, asked: seq<Query>, sent: seq<PreviewRequest>, ask: AskFn,
                       ks: seq<string>, pageSize: nat, answers: seq<Answer>, k: nat, last: Query, columns: seq<string>)
    requires Exporting(all, rows, asked, sent, ask, ks, pageSize, answers, k, last, columns)
    requires ask(last).None? || k == |answers| || answers[k].QueryFailed?
    ensures if ask(last).None? then all == Run(QueryError(k + 1), asked, sent) else
            all == Run(if k == |answers| then StillReading else QueryError(k + 1), asked + [last],
                       sent + [ask(last).value])
  {}

  /** One pass of the loop that reads a page: where it ends, and what holds when it goes on. */
  lemma ExportingTurns(all: Run, rows: seq<Cells>, asked: seq<Query>, sent: seq<PreviewRequest>, ask: AskFn,
                       ks: seq<string>, pageSize: nat, answers: seq<Answer>, k: nat, last: Query, columns: seq<string>,
                       turn: Turn)
    requires Exporting(all, rows, asked, sent, ask, ks, pageSize, answers, k, last, columns)
    requires ask(last).Some? && k < |answers| && answers[k].Page?
    requires turn == TurnAfter(ColumnsFrom(answers, k, columns), answers[k].rows, rows + answers[k].rows, ks, pageSize,
                               k + 1, last)
    ensures var asked', sent', page := asked + [last], sent + [ask(last).value], answers[k].rows;
            match turn
            case Stop(result) => all == Run(result, asked', sent')
            case GoOn(next) => Exporting(all, rows + page, asked', sent', ask, ks, pageSize, answers, k + 1, next,
                                         ColumnsFrom(answers, k, columns))
  {
    if turn.GoOn? {
      PrependTwice(rows, answers[k].rows, asked, last, sent, ask(last).value,
                   ExportFrom(ask, ks, pageSize, answers, k + 1, turn.next, ColumnsFrom(answers, k, columns)));
    }
  }

  lemma PrependTwice(rows: seq<Cells>, page: seq<Cells>, asked: seq<Query>, query: Query, sent: seq<PreviewRequest>,
                     request: PreviewRequest, run: Run)
    ensures PrependAll(rows, asked, sent, PrependAll(page, [query], [request], run))
            == PrependAll(rows + page, asked + [query], sent + [request], run)
  {
    assert asked + ([query] + run.asked) == (asked + [query]) + run.asked;
    assert sent + ([request] + run.sent) == (sent + [request]) + run.sent;
    if run.result.Done? {
      assert rows + (page + run.result.rows) == (rows + page) + run.result.rows;
    }
  }

  // ---------------------------------------------------------------------------
  // For every server
  // ---------------------------------------------------------------------------

  function RowsOf(answer: Answer): seq<Cells> { if answer.Page? then answer.rows else [] }

  predicate IsFull(answer: Answer, pageSize: nat) { answer.Page? && 0 < pageSize <= |answer.rows| }

  function LastRow(answer: Answer): Cells
    requires answer.Page? && answer.rows != []
  {
    answer.rows[|answer.rows| - 1]
  }

  /** The j-th query of the run asks for what comes after the last row of the full page before it,
      which is not what the query before it asked for. */
  predicate ContinuesPage(ks: seq<string>, pageSize: nat, columns: seq<string>, page: Answer, before: Query,
                          query: Query)
  {
    && IsFull(page, pageSize)
    && query == KeyValues(columns, ks, LastRow(page)) && query.Some? && query != before
  }

  function ColumnsFrom(answers: seq<Answer>, k: nat, columns: seq<string>): seq<string> {
    if k == 0 && answers != [] && answers[0].Page? then answers[0].columns else columns
  }

  /** The loop either ends at the k-th answer or goes on with the next one. */
  predicate GoesOn(ask: AskFn, ks: seq<string>, pageSize: nat, answers: seq<Answer>, k: nat, last: Query,
                   columns: seq<string>)
    requires k < |answers|
  {
    && ask(last).Some? && IsFull(answers[k], pageSize) && ks != []
    && KeyValues(ColumnsFrom(answers, k, columns), ks, LastRow(answers[k])).Some?
    && KeyValues(ColumnsFrom(answers, k, columns), ks, LastRow(answers[k])) != last
  }

  lemma LoopStep(ask: AskFn, ks: seq<string>, pageSize: nat, answers: seq<Answer>, k: nat, last: Query,
                 columns: seq<string>)
    requires pageSize > 0 && k < |answers|
    ensures var cols := ColumnsFrom(answers, k, columns);
            var run := ExportFrom(ask, ks, pageSize, answers, k, last, columns);
            if GoesOn(ask, ks, pageSize, answers, k, last, columns) then
              run == PrependAll(answers[k].rows, [last], [ask(last).value],
                                ExportFrom(ask, ks, pageSize, answers, k + 1, KeyValues(cols, ks, LastRow(answers[k])),
                                           cols))
            else
              && (if ask(last).None? then run.asked == [] && run.sent == []
                  else run.asked == [last] && run.sent == [ask(last).value])
              && !run.result.StillReading?
              && (run.result.Done? ==>
                    && ask(last).Some? && answers[k].Page? && |answers[k].rows| < pageSize
                    && run.result == Done(cols, answers[k].rows, k + 1))
  {}

  /** Every query but the first continues the full page before it; answers[k] is the reply to the first. */
  predicate Continues(ks: seq<string>, pageSize: nat, columns: seq<string>, answers: seq<Answer>, k: nat,
                      asked: seq<Query>)
    requires k + |asked| <= |answers| + 1
  {
    forall j {:trigger asked[j]} | 0 < j < |asked| ::
      ContinuesPage(ks, pageSize, columns, answers[k + j - 1], asked[j - 1], asked[j])
  }

  lemma ContinuesLonger(ks: seq<string>, pageSize: nat, columns: seq<string>, answers: seq<Answer>, k: nat,
                        first: Query, rest: seq<Query>)
    requires rest != [] && k + 1 + |rest| <= |answers| + 1
    requires ContinuesPage(ks, pageSize, columns, answers[k], first, rest[0])
    requires Continues(ks, pageSize, columns, answers, k + 1, rest)
    ensures Continues(ks, pageSize, columns, answers, k, [first] + rest)
  {
    var asked := [first] + rest;
    forall j {:trigger asked[j]} | 0 < j < |asked|
      ensures ContinuesPage(ks, pageSize, columns, answers[k + j - 1], asked[j - 1], asked[j])
    {
      assert asked[j] == rest[j - 1];
      if j > 1 {
        assert asked[j - 1] == rest[j - 2] && answers[(k + 1) + (j - 1) - 1] == answers[k + j - 1];
      }
    }
  }

  /** Each request is the one for its query. */
  predicate SentFor(ask: AskFn, asked: seq<Query>, sent: seq<PreviewRequest>) {
    |sent| == |asked| && forall j {:trigger asked[j]} | 0 <= j < |asked| :: ask(asked[j]) == Some(sent[j])
  }

  /** Whatever the server answers, the queries continue each other's pages. */
  lemma {:induction false} EveryQueryContinuesAPage(ask: AskFn, ks: seq<string>, pageSize: nat, answers: seq<Answer>,
                                                    k: nat, last: Query, columns: seq<string>)
    requires pageSize > 0 && k <= |answers|
    ensures var run := ExportFrom(ask, ks, pageSize, answers, k, last, columns);
            && (if ask(last).None? then run.asked == [] else run.asked != [] && run.asked[0] == last)
            && k + |run.asked| <= |answers| + 1 && SentFor(ask, run.asked, run.sent)
            && Continues(ks, pageSize, ColumnsFrom(answers, k, columns), answers, k, run.asked)
    decreases |answers| - k
  {
    if k < |answers| {
      LoopStep(ask, ks, pageSize, answers, k, last, columns);
      if GoesOn(ask, ks, pageSize, answers, k, last, columns) {
        var cols := ColumnsFrom(answers, k, columns);
        var next := KeyValues(cols, ks, LastRow(answers[k]));
        EveryQueryContinuesAPage(ask, ks, pageSize, answers, k + 1, next, cols);
        var rest := ExportFrom(ask, ks, pageSize, answers, k + 1, next, cols);
        SentForMore(ask, last, rest);
        if rest.asked != [] {
          ContinuesLonger(ks, pageSize, cols, answers, k, last, rest.asked);
        }
      }
    }
  }

  lemma SentForMore(ask: AskFn, query: Query, run: Run)
    requires ask(query).Some? && SentFor(ask, run.asked, run.sent)
    ensures SentFor(ask, [query] + run.asked, [ask(query).value] + run.sent)
  {}

  /** What the next query of the run would ask for. */
  function NextQuery(ks: seq<string>, answers: seq<Answer>, k: nat, n: nat, last: Query, columns: seq<string>): Query
    requires k <= n <= |answers| && (n > k ==> answers[n - 1].Page? && answers[n - 1].rows != [])
  {
    if n == k then last else KeyValues(columns, ks, LastRow(answers[n - 1]))
  }

  /** How a run ends that has asked the queries up to the n-th: each result for its own reason. */
  ghost predicate EndsFor(run: Run, ask: AskFn, ks: seq<string>, pageSize: nat, answers: seq<Answer>, k: nat,
                          last: Query, columns: seq<string>)
    requires k <= |answers| && k + |run.asked| <= |answers| + 1
  {
    var n := k + |run.asked|;
    var full := k < n <= |answers| && IsFull(answers[n - 1], pageSize);
    match run.result
    case Done(_, _, pages) =>
      pages == n && k < n <= |answers| && answers[n - 1].Page? && |answers[n - 1].rows| < pageSize
    case QueryError(page) =>
      || (page == n && k < n <= |answers| && answers[n - 1] == QueryFailed)
      || (page == n + 1 && (n == k || full) && ask(NextQuery(ks, answers, k, n, last, columns)).None?)
    case NoKeyToPaginateOn(page) => page == n && full && ks == []
    case KeysMissing(page) =>
      page == n && full && ks != [] && KeyValues(columns, ks, LastRow(answers[n - 1])) == None
    case NoProgress(page) =>
      && page == n && full && ks != []
      && KeyValues(columns, ks, LastRow(answers[n - 1])) == run.asked[|run.asked| - 1] != None
    case StillReading => n == |answers| + 1
    case BadIdentifier => false
  }

  lemma {:induction false} EndsHere(ask: AskFn, ks: seq<string>, pageSize: nat, answers: seq<Answer>, k: nat,
                                    last: Query, columns: seq<string>)
    requires pageSize > 0 && k <= |answers|
    requires k < |answers| ==> !GoesOn(ask, ks, pageSize, answers, k, last, columns)
    ensures var run := ExportFrom(ask, ks, pageSize, answers, k, last, columns);
            && k + |run.asked| <= |answers| + 1
            && EndsFor(run, ask, ks, pageSize, answers, k, last, ColumnsFrom(answers, k, columns))
  {}

  /** Whatever the server answers, the export ends for the reason it reports, at the page it reports. */
  lemma {:induction false} EveryEndIsExplained(ask: AskFn, ks: seq<string>, pageSize: nat, answers: seq<Answer>,
                                               k: nat, last: Query, columns: seq<string>)
    requires pageSize > 0 && k <= |answers|
    ensures var run := ExportFrom(ask, ks, pageSize, answers, k, last, columns);
            && k + |run.asked| <= |answers| + 1
            && EndsFor(run, ask, ks, pageSize, answers, k, last, ColumnsFrom(answers, k, columns))
    decreases |answers| - k
  {
    if k < |answers| && GoesOn(ask, ks, pageSize, answers, k, last, columns) {
      LoopStep(ask, ks, pageSize, answers, k, last, columns);
      var cols := ColumnsFrom(answers, k, columns);
      var next := KeyValues(cols, ks, LastRow(answers[k]));
      EveryEndIsExplained(ask, ks, pageSize, answers, k + 1, next, cols);
      var rest := ExportFrom(ask, ks, pageSize, answers, k + 1, next, cols);
      EndsLater(rest, ask, ks, pageSize, answers, k, last, next, cols);
    } else {
      EndsHere(ask, ks, pageSize, answers, k, last, columns);
    }
  }

  lemma {:induction false} EndsLater(rest: Run, ask: AskFn, ks: seq<string>, pageSize: nat, answers: seq<Answer>,
                                     k: nat, last: Query, next: Query, columns: seq<string>)
    requires k < |answers| && IsFull(answers[k], pageSize) && ask(last).Some?
    requires next == KeyValues(columns, ks, LastRow(answers[k])) && k + 1 + |rest.asked| <= |answers| + 1
    requires EndsFor(rest, ask, ks, pageSize, answers, k + 1, next, columns)
    ensures EndsFor(PrependAll(answers[k].rows, [last], [ask(last).value], rest), ask, ks, pageSize, answers, k, last,
                    columns)
  {
    var asked := [last] + rest.asked;
    if rest.asked != [] {
      assert asked[|asked| - 1] == rest.asked[|rest.asked| - 1];
    }
  }

  /** A run from the k-th query on that read short pages last and has the rows of all its pages. */
  predicate IsComplete(run: Run, pageSize: nat, answers: seq<Answer>, k: nat, columns: seq<string>) {
    && run.result.Done?
    && var pages := run.result.pages;
    && k < pages == k + |run.asked| <= |answers|
    && answers[pages - 1].Page? && |answers[pages - 1].rows| < pageSize
    && run.result.columns == ColumnsFrom(answers, k, columns)
    && run.result.rows == FlatMap(RowsOf, answers[k..pages])
  }

  lemma CompleteLast(run: Run, pageSize: nat, answers: seq<Answer>, k: nat, columns: seq<string>)
    requires k < |answers| && answers[k].Page? && |answers[k].rows| < pageSize && |run.asked| == 1
    requires run.result == Done(ColumnsFrom(answers, k, columns), answers[k].rows, k + 1)
    ensures IsComplete(run, pageSize, answers, k, columns)
  {
    RowsOfMore(answers, k, k + 1);
    assert answers[k + 1..k + 1] == [];
  }

  lemma CompleteMore(rest: Run, query: Query, request: PreviewRequest, pageSize: nat, answers: seq<Answer>, k: nat,
                     columns: seq<string>)
    requires k < |answers| && IsComplete(rest, pageSize, answers, k + 1, ColumnsFrom(answers, k, columns))
             && answers[k].Page?
    ensures IsComplete(PrependAll(answers[k].rows, [query], [request], rest), pageSize, answers, k, columns)
  {
    RowsOfMore(answers, k, rest.result.pages);
  }

  /** Whatever the server answers: a table is reported as exported only when its last page was
      short, and then with the rows of all its pages in order. */
  lemma {:induction false} OnlyCompleteExports(ask: AskFn, ks: seq<string>, pageSize: nat, answers: seq<Answer>,
                                               k: nat, last: Query, columns: seq<string>)
    requires pageSize > 0 && k <= |answers| && ExportFrom(ask, ks, pageSize, answers, k, last, columns).result.Done?
    ensures IsComplete(ExportFrom(ask, ks, pageSize, answers, k, last, columns), pageSize, answers, k, columns)
    decreases |answers| - k
  {
    LoopStep(ask, ks, pageSize, answers, k, last, columns);
    if GoesOn(ask, ks, pageSize, answers, k, last, columns) {
      var cols := ColumnsFrom(answers, k, columns);
      var next := KeyValues(cols, ks, LastRow(answers[k]));
      OnlyCompleteExports(ask, ks, pageSize, answers, k + 1, next, cols);
      CompleteMore(ExportFrom(ask, ks, pageSize, answers, k + 1, next, cols), last, ask(last).value, pageSize, answers,
                   k, columns);
    } else {
      CompleteLast(ExportFrom(ask, ks, pageSize, answers, k, last, columns), pageSize, answers, k, columns);
    }
  }

  lemma RowsOfMore(answers: seq<Answer>, k: nat, pages: nat)
    requires k < pages <= |answers|
    ensures FlatMap(RowsOf, answers[k..pages]) == RowsOf(answers[k]) + FlatMap(RowsOf, answers[k + 1..pages])
  {
    FlatMapCons(RowsOf, answers[k], answers[k + 1..pages]);
    assert answers[k..pages] == [answers[k]] + answers[k + 1..pages];
  }

  // ---------------------------------------------------------------------------
  // For a server with a well-kept table
  // ---------------------------------------------------------------------------

  /** Each answer is the one this server gives to the request. */
  predicate ServedBy(server: Server, sent: seq<PreviewRequest>, answers: seq<Answer>)
    requires forall r | r in server.table.rows :: |r| == |server.table.columns|
  {
    forall j | 0 <= j < |sent| && j < |answers| :: answers[j] == Reply(server, sent[j])
  }

  /** The query after start rows of the table have been read. */
  function QueryAfter(table: Table, ks: seq<string>, start: nat): Query
    requires start <= |table.rows| && Shaped(table, ks)
  {
    if start == 0 then None else Some(KeyTuple(table, ks, table.rows[start - 1]))
  }

  predicate Unbroken(values: seq<string>) { forall v | v in values :: ';' !in v && '\n' !in v }

  /** The query after start rows can be sent and read: no key value of the last row read holds a
      semicolon or a line break, and every word of a long statement fits on a line. */
  predicate CanGoOn(server: Server, keyTypes: map<string, string>, start: nat)
    requires start <= |server.table.rows| && Shaped(server.table, NonMandt(server.keys))
  {
    var query := QueryAfter(server.table, NonMandt(server.keys), start);
    && (query.Some? ==> Unbroken(query.value))
    && LinesFit(server.name, server.keys, ConditionOf(server.keys, keyTypes, query))
  }

  lemma {:induction false} NamesAreIdentifiers(keys: seq<string>)
    requires AllIdentifiers(keys)
    ensures AllIdentifiers(NonMandt(keys))
  {
    NonMandtMembers(keys);
  }

  lemma ConditionIsValid(keys: seq<string>, keyTypes: map<string, string>, query: Query)
    requires AllIdentifiers(keys)
    ensures var cond := ConditionOf(keys, keyTypes, query);
            forall i | 0 <= i < |cond| :: cond[i] != [] && ValidTerm(cond[i])
  {
    NamesAreIdentifiers(keys);
    var cond: Condition, ks := ConditionOf(keys, keyTypes, query), NonMandt(keys);
    forall i | 0 <= i < |cond| ensures cond[i] != [] && ValidTerm(cond[i]) {
      forall j | 0 <= j < |cond[i]| ensures IsIdentifier(cond[i][j].column) {
        assert cond[i][j].column == ks[j];
      }
    }
  }

  /** The values of a pagination condition are the key values it is made of. */
  lemma InPageCondition(ks: seq<string>, values: seq<string>, keyTypes: map<string, string>, c: char)
    requires ks != [] && |ks| == |values|
    ensures InCondition(PageCondition(ks, values, keyTypes), c) <==> exists v :: v in values && c in v
  {
    var cond: Condition := PageCondition(ks, values, keyTypes);
    if v :| v in values && c in v {
      var i :| 0 <= i < |values| && values[i] == v;
      assert c in cond[i][i].value;
      assert InTerm(cond[i], c);
    }
    if i :| 0 <= i < |cond| && InTerm(cond[i], c) {
      var j :| 0 <= j < |cond[i]| && c in cond[i][j].value;
      assert cond[i][j].value == values[j];
    }
  }

  lemma CanGoOnIsArriving(server: Server, keyTypes: map<string, string>, start: nat)
    requires start <= |server.table.rows| && Shaped(server.table, NonMandt(server.keys))
    requires NonMandt(server.keys) != [] || start == 0
    ensures var query := QueryAfter(server.table, NonMandt(server.keys), start);
            CanGoOn(server, keyTypes, start)
            <==> Arrives(server.name, server.keys, ConditionOf(server.keys, keyTypes, query))
  {
    var query := QueryAfter(server.table, NonMandt(server.keys), start);
    if query.Some? {
      UnbrokenCondition(NonMandt(server.keys), query.value, keyTypes);
    } else {
      NoCondition(server.keys, keyTypes);
    }
  }

  lemma UnbrokenCondition(ks: seq<string>, values: seq<string>, keyTypes: map<string, string>)
    requires ks != [] && |ks| == |values|
    ensures var cond := PageCondition(ks, values, keyTypes);
            Unbroken(values) <==> !InCondition(cond, ';') && !InCondition(cond, '\n')
  {
    InPageCondition(ks, values, keyTypes, ';');
    InPageCondition(ks, values, keyTypes, '\n');
  }

  lemma NoCondition(keys: seq<string>, keyTypes: map<string, string>)
    ensures ConditionOf(keys, keyTypes, None) == []
  {}

  lemma {:induction false} ServedAfter(table: Table, ks: seq<string>, keyTypes: map<string, string>, less: Order,
                                       pageSize: nat, start: nat)
    requires Ordered(table, ks, less) && start <= |table.rows| && (ks != [] || start == 0)
    ensures Serve(table, PageCondition(ks, ValuesOf(QueryAfter(table, ks, start)), keyTypes), pageSize, less)
            == Page(table.columns, Take(table.rows[start..], pageSize))
  {
    var values := ValuesOf(QueryAfter(table, ks, start));
    if start == 0 {
      FirstPage(table, ks, keyTypes, less, pageSize);
      assert Serve(table, PageCondition(ks, values, keyTypes), pageSize, less)
             == Page(table.columns, Take(table.rows[start..], pageSize));
    } else {
      var at := start - 1;
      ServedPage(table, ks, keyTypes, less, pageSize, at);
      assert values == KeyTuple(table, ks, table.rows[at]) && table.rows[at + 1..] == table.rows[start..];
      assert Serve(table, PageCondition(ks, values, keyTypes), pageSize, less)
             == Page(table.columns, Take(table.rows[start..], pageSize));
    }
  }

  lemma {:induction false} FirstPage(table: Table, ks: seq<string>, keyTypes: map<string, string>, less: Order,
                                     pageSize: nat)
    requires forall r | r in table.rows :: |r| == |table.columns|
    ensures Serve(table, PageCondition(ks, [], keyTypes), pageSize, less)
            == Page(table.columns, Take(table.rows[0..], pageSize))
  {
    assert PageCondition(ks, [], keyTypes) == [];
    MatchingAll(table, table.rows, less);
    assert table.rows[0..] == table.rows;
  }

  /** What becomes of the query after start rows: the next rows if it can go on, no answer otherwise. */
  lemma {:induction false} ReplyAfter(server: Server, keyTypes: map<string, string>, pageSize: nat, start: nat)
    requires Ordered(server.table, NonMandt(server.keys), server.less) && start <= |server.table.rows| && pageSize > 0
    requires IsIdentifier(server.name) && AllIdentifiers(server.keys) && (NonMandt(server.keys) != [] || start == 0)
    ensures var query := QueryAfter(server.table, NonMandt(server.keys), start);
            var request := Ask(server.name, server.keys, keyTypes, pageSize)(query);
            if CanGoOn(server, keyTypes, start)
            then request.Some?
                 && Reply(server, request.value)
                    == Page(server.table.columns, Take(server.table.rows[start..], pageSize))
            else request.None? || Reply(server, request.value) == QueryFailed
  {
    ReplyAt(server, keyTypes, pageSize, start);
    ServedAfter(server.table, NonMandt(server.keys), keyTypes, server.less, pageSize, start);
  }

  /** Whatever the order of the rows: the rows the condition of the query selects, or no answer. */
  lemma {:induction false} ReplyAt(server: Server, keyTypes: map<string, string>, pageSize: nat, start: nat)
    requires Shaped(server.table, NonMandt(server.keys)) && start <= |server.table.rows| && pageSize > 0
    requires IsIdentifier(server.name) && AllIdentifiers(server.keys) && (NonMandt(server.keys) != [] || start == 0)
    ensures var query := QueryAfter(server.table, NonMandt(server.keys), start);
            var request := Ask(server.name, server.keys, keyTypes, pageSize)(query);
            if CanGoOn(server, keyTypes, start)
            then request.Some?
                 && Reply(server, request.value)
                    == Serve(server.table, ConditionOf(server.keys, keyTypes, query), pageSize, server.less)
            else request.None? || Reply(server, request.value) == QueryFailed
  {
    var query := QueryAfter(server.table, NonMandt(server.keys), start);
    var cond := ConditionOf(server.keys, keyTypes, query);
    ConditionIsValid(server.keys, keyTypes, query);
    CanGoOnIsArriving(server, keyTypes, start);
    StatementArrivesExactly(server.name, server.keys, cond, pageSize, server.s4);
    ReplyTo(server, Submitted(StatementText(server.name, server.keys, cond), pageSize), cond, pageSize,
            CanGoOn(server, keyTypes, start));
  }

  lemma ReplyTo(server: Server, request: Option<PreviewRequest>, cond: Condition, rows: nat, arrives: bool)
    requires forall r | r in server.table.rows :: |r| == |server.table.columns|
    requires if arrives
             then && request.Some? && request.value.rows == rows && !HasLongLine(request.value.text)
                  && Received(request.value, server.s4) == Some(Select(server.name, cond, server.keys))
             else request.None? || Received(request.value, server.s4).None?
    ensures if arrives then Reply(server, request.value) == Serve(server.table, cond, rows, server.less)
            else request.None? || Reply(server, request.value) == QueryFailed
  {}

  /** What the loop needs of the table: marks[i] is the query after the first i rows, which no other
      number of rows leads to. */
  predicate Marked(table: Table, ks: seq<string>, marks: seq<Query>) {
    && |marks| == |table.rows| + 1 && marks[0] == None
    && (forall i | 0 < i < |marks| :: marks[i].Some? && marks[i] == KeyValues(table.columns, ks, table.rows[i - 1]))
    && (forall i, j | 0 <= i < j < |marks| :: marks[i] != marks[j])
  }

  /** What it needs of the requests: goes[i] says that the query after the first i rows can be sent. */
  predicate CanAsk(ask: AskFn, marks: seq<Query>, goes: seq<bool>) {
    |goes| == |marks| && forall i {:trigger goes[i]} | 0 <= i < |goes| && goes[i] :: ask(marks[i]).Some?
  }

  /** What it needs of the server: after the first i rows it serves the next ones, or nothing. */
  predicate Resumes(table: Table, marks: seq<Query>, goes: seq<bool>, pageSize: nat, asked: seq<Query>,
                    answers: seq<Answer>, k: nat)
    requires |goes| == |marks| == |table.rows| + 1
  {
    forall i, j {:trigger marks[i], asked[j]} |
      0 <= i < |marks| && 0 <= j < |asked| && k + j < |answers| && asked[j] == marks[i] ::
      answers[k + j] == PageOrNone(table, goes, pageSize, i)
  }

  function PageOrNone(table: Table, goes: seq<bool>, pageSize: nat, i: nat): Answer
    requires i < |goes| == |table.rows| + 1
  {
    if goes[i] then Page(table.columns, Take(table.rows[i..], pageSize)) else QueryFailed
  }

  lemma ResumesTail(table: Table, marks: seq<Query>, goes: seq<bool>, pageSize: nat, query: Query, rest: seq<Query>,
                    answers: seq<Answer>, k: nat)
    requires |goes| == |marks| == |table.rows| + 1 && Resumes(table, marks, goes, pageSize, [query] + rest, answers, k)
    ensures Resumes(table, marks, goes, pageSize, rest, answers, k + 1)
    ensures forall i | 0 <= i < |marks| && k < |answers| && query == marks[i] ::
              answers[k] == PageOrNone(table, goes, pageSize, i)
  {
    var asked := [query] + rest;
    forall i | 0 <= i < |marks| && k < |answers| && query == marks[i]
      ensures answers[k] == PageOrNone(table, goes, pageSize, i)
    {
      assert asked[0] == marks[i] && answers[k + 0] == answers[k];
    }
    forall i, j {:trigger marks[i], rest[j]} |
      0 <= i < |marks| && 0 <= j < |rest| && k + 1 + j < |answers| && rest[j] == marks[i]
      ensures answers[k + 1 + j] == PageOrNone(table, goes, pageSize, i)
    {
      assert asked[j + 1] == marks[i] && answers[k + (j + 1)] == answers[k + 1 + j];
    }
  }

  /** One full page: the loop goes on right behind it. */
  lemma FullPageStep(ask: AskFn, table: Table, ks: seq<string>, marks: seq<Query>, pageSize: nat, answers: seq<Answer>,
                     k: nat, start: nat, columns: seq<string>)
    requires Marked(table, ks, marks) && ks != [] && pageSize > 0 && k < |answers|
    requires start + pageSize <= |table.rows| && (k > 0 ==> columns == table.columns) && ask(marks[start]).Some?
    requires answers[k] == Page(table.columns, table.rows[start..start + pageSize])
    ensures ExportFrom(ask, ks, pageSize, answers, k, marks[start], columns)
            == PrependAll(table.rows[start..start + pageSize], [marks[start]], [ask(marks[start]).value],
                          ExportFrom(ask, ks, pageSize, answers, k + 1, marks[start + pageSize], table.columns))
  {
    assert LastRow(answers[k]) == table.rows[start + pageSize - 1];
    assert marks[start] != marks[start + pageSize];
    LoopStep(ask, ks, pageSize, answers, k, marks[start], columns);
  }

  /** The page the loop gets, and what is left of the server's promise. */
  lemma PageArrives(ask: AskFn, table: Table, ks: seq<string>, marks: seq<Query>, goes: seq<bool>, pageSize: nat,
                    answers: seq<Answer>, k: nat, start: nat, columns: seq<string>)
    requires |goes| == |marks| == |table.rows| + 1 && start <= |table.rows| && pageSize > 0 && k < |answers|
    requires ask(marks[start]).Some?
    requires Resumes(table, marks, goes, pageSize,
                     ExportFrom(ask, ks, pageSize, answers, k, marks[start], columns).asked, answers, k)
    ensures var asked := ExportFrom(ask, ks, pageSize, answers, k, marks[start], columns).asked;
            asked != [] && Resumes(table, marks, goes, pageSize, asked[1..], answers, k + 1)
    ensures answers[k] == PageOrNone(table, goes, pageSize, start)
  {
    var asked := ExportFrom(ask, ks, pageSize, answers, k, marks[start], columns).asked;
    EveryQueryContinuesAPage(ask, ks, pageSize, answers, k, marks[start], columns);
    assert asked == [marks[start]] + asked[1..];
    ResumesTail(table, marks, goes, pageSize, marks[start], asked[1..], answers, k);
  }

  /** A short page ends the export. */
  lemma ShortPageStep(ask: AskFn, table: Table, ks: seq<string>, pageSize: nat, answers: seq<Answer>,
                      k: nat, start: nat, last: Query, columns: seq<string>)
    requires pageSize > 0 && k < |answers| && start <= |table.rows| < start + pageSize
    requires (k > 0 ==> columns == table.columns) && ask(last).Some?
    requires answers[k] == Page(table.columns, Take(table.rows[start..], pageSize))
    ensures ExportFrom(ask, ks, pageSize, answers, k, last, columns).result
            == Done(table.columns, table.rows[start..], k + 1)
  {}

  /** The first page boundary from start on behind which the export cannot go on. */
  function FailsAt(goes: seq<bool>, pageSize: nat, start: nat): (at: Option<nat>)
    requires pageSize > 0 && start < |goes|
    ensures at.Some? ==> start <= at.value < |goes| && !goes[at.value]
    decreases |goes| - start
  {
    if !goes[start] then Some(start)
    else if start + pageSize < |goes| then FailsAt(goes, pageSize, start + pageSize)
    else None
  }

  /** The rows behind start if nothing fails, or else the error at the first boundary that does. */
  function Expected(table: Table, goes: seq<bool>, pageSize: nat, start: nat): Export
    requires pageSize > 0 && start < |goes| == |table.rows| + 1
  {
    match FailsAt(goes, pageSize, start)
    case Some(at) => QueryError(PageCount(at, pageSize))
    case None => Done(table.columns, table.rows[start..], PageCount(|table.rows|, pageSize))
  }

  /** One full page, and what the server still promises behind it. */
  lemma OneMorePage(ask: AskFn, table: Table, ks: seq<string>, marks: seq<Query>, goes: seq<bool>, pageSize: nat,
                    answers: seq<Answer>, k: nat, start: nat, columns: seq<string>)
    requires Marked(table, ks, marks) && |goes| == |marks| && ks != [] && pageSize > 0 && k < |answers|
    requires start + pageSize <= |table.rows| && (k > 0 ==> columns == table.columns) && ask(marks[start]).Some?
    requires goes[start] && answers[k] == PageOrNone(table, goes, pageSize, start)
    requires var asked := ExportFrom(ask, ks, pageSize, answers, k, marks[start], columns).asked;
             asked != [] && Resumes(table, marks, goes, pageSize, asked[1..], answers, k + 1)
    ensures var rest := ExportFrom(ask, ks, pageSize, answers, k + 1, marks[start + pageSize], table.columns);
            && ExportFrom(ask, ks, pageSize, answers, k, marks[start], columns)
               == PrependAll(table.rows[start..start + pageSize], [marks[start]], [ask(marks[start]).value], rest)
            && Resumes(table, marks, goes, pageSize, rest.asked, answers, k + 1)
  {
    TakePage(table.rows, start, start + pageSize);
    FullPageStep(ask, table, ks, marks, pageSize, answers, k, start, columns);
    var rest := ExportFrom(ask, ks, pageSize, answers, k + 1, marks[start + pageSize], table.columns);
    assert ([marks[start]] + rest.asked)[1..] == rest.asked;
  }

  /** From any page on: the remaining rows exactly once, in order, after n / pageSize + 1 pages, or
      an error at the first page that cannot be asked for. */
  lemma {:induction false} ExportsAllRows(ask: AskFn, table: Table, ks: seq<string>, marks: seq<Query>, goes: seq<bool>,
                                          pageSize: nat, answers: seq<Answer>, k: nat, start: nat, columns: seq<string>)
    requires Marked(table, ks, marks) && CanAsk(ask, marks, goes) && ks != [] && pageSize > 0
    requires start == k * pageSize <= |table.rows| && |answers| >= PageCount(|table.rows|, pageSize) && k <= |answers|
    requires k > 0 ==> columns == table.columns
    requires Resumes(table, marks, goes, pageSize,
                     ExportFrom(ask, ks, pageSize, answers, k, marks[start], columns).asked, answers, k)
    ensures ExportFrom(ask, ks, pageSize, answers, k, marks[start], columns).result
            == Expected(table, goes, pageSize, start)
    decreases |answers| - k
  {
    var n := |table.rows|;
    PagesBelow(k, pageSize, n);
    if ask(marks[start]).None? {
      assert !goes[start];
      LastPage(k, pageSize, start);
    } else {
      PageArrives(ask, table, ks, marks, goes, pageSize, answers, k, start, columns);
      if !goes[start] {
        LastPage(k, pageSize, start);
      } else if n - start < pageSize {
        ShortPageStep(ask, table, ks, pageSize, answers, k, start, marks[start], columns);
        LastPage(k, pageSize, n);
      } else {
        NextPage(k, pageSize, start);
        OneMorePage(ask, table, ks, marks, goes, pageSize, answers, k, start, columns);
        ExportsAllRows(ask, table, ks, marks, goes, pageSize, answers, k + 1, start + pageSize, table.columns);
        ExpectedNext(table, goes, pageSize, start);
      }
    }
  }

  lemma ExpectedNext(table: Table, goes: seq<bool>, pageSize: nat, start: nat)
    requires pageSize > 0 && start + pageSize < |goes| == |table.rows| + 1 && goes[start]
    ensures Expected(table, goes, pageSize, start)
            == match Expected(table, goes, pageSize, start + pageSize)
               case Done(columns, rows, pages) => Done(columns, table.rows[start..start + pageSize] + rows, pages)
               case other => other
  {
    TakePage(table.rows, start, start + pageSize);
  }

  lemma TakePage(rows: seq<Cells>, start: nat, next: nat)
    requires start <= next <= |rows|
    ensures Take(rows[start..], next - start) == rows[start..next] && rows[start..] == rows[start..next] + rows[next..]
  {}

  function Marks(table: Table, ks: seq<string>): (marks: seq<Query>)
    requires Shaped(table, ks)
    ensures |marks| == |table.rows| + 1
    ensures forall i {:trigger marks[i]} | 0 <= i < |marks| :: marks[i] == QueryAfter(table, ks, i)
  {
    seq(|table.rows| + 1, i requires 0 <= i <= |table.rows| => QueryAfter(table, ks, i))
  }

  lemma OrderedIsMarked(table: Table, ks: seq<string>, less: Order)
    requires Ordered(table, ks, less)
    ensures Marked(table, ks, Marks(table, ks))
  {
    var marks := Marks(table, ks);
    forall i | 0 < i < |marks|
      ensures marks[i].Some? && marks[i] == KeyValues(table.columns, ks, table.rows[i - 1])
    {
      KeyValuesOfServed(table, ks, table.rows[i - 1]);
    }
    forall i, j | 0 <= i < j < |marks|
      ensures marks[i] != marks[j]
    {
      QueriesDiffer(table, ks, less, i, j);
    }
  }

  lemma {:induction false} QueriesDiffer(table: Table, ks: seq<string>, less: Order, i: nat, j: nat)
    requires Ordered(table, ks, less) && i < j <= |table.rows|
    ensures QueryAfter(table, ks, i) != QueryAfter(table, ks, j)
  {
    assert QueryAfter(table, ks, j) == Some(KeyTuple(table, ks, table.rows[j - 1]));
    if i > 0 {
      KeysDiffer(table, ks, less, i - 1, j - 1);
      assert QueryAfter(table, ks, i) == Some(KeyTuple(table, ks, table.rows[i - 1]));
      assert QueryAfter(table, ks, i) != QueryAfter(table, ks, j);
    } else {
      assert QueryAfter(table, ks, i) == None;
    }
  }

  lemma KeysDiffer(table: Table, ks: seq<string>, less: Order, i: nat, j: nat)
    requires Ordered(table, ks, less) && i < j < |table.rows|
    ensures KeyTuple(table, ks, table.rows[i]) != KeyTuple(table, ks, table.rows[j])
  {
    RowsInOrder(table, ks, less, i, j);
    LexLessIrreflexive(KeyTuple(table, ks, table.rows[i]), less);
  }

  /** Where the export of this server's table can go on. */
  function Goes(server: Server, keyTypes: map<string, string>): (goes: seq<bool>)
    requires Shaped(server.table, NonMandt(server.keys))
    ensures |goes| == |server.table.rows| + 1
    ensures forall i {:trigger goes[i]} | 0 <= i < |goes| :: goes[i] == CanGoOn(server, keyTypes, i)
  {
    seq(|server.table.rows| + 1, i requires 0 <= i <= |server.table.rows| => CanGoOn(server, keyTypes, i))
  }

  lemma ServedResumes(server: Server, keyTypes: map<string, string>, pageSize: nat, asked: seq<Query>,
                      sent: seq<PreviewRequest>, answers: seq<Answer>)
    requires Ordered(server.table, NonMandt(server.keys), server.less) && NonMandt(server.keys) != [] && pageSize > 0
    requires IsIdentifier(server.name) && AllIdentifiers(server.keys)
    requires SentFor(Ask(server.name, server.keys, keyTypes, pageSize), asked, sent) && ServedBy(server, sent, answers)
    ensures var marks, goes := Marks(server.table, NonMandt(server.keys)), Goes(server, keyTypes);
            && CanAsk(Ask(server.name, server.keys, keyTypes, pageSize), marks, goes)
            && Resumes(server.table, marks, goes, pageSize, asked, answers, 0)
  {
    var marks, goes := Marks(server.table, NonMandt(server.keys)), Goes(server, keyTypes);
    forall i {:trigger goes[i]} | 0 <= i < |goes| && goes[i]
      ensures Ask(server.name, server.keys, keyTypes, pageSize)(marks[i]).Some?
    {
      ReplyAfter(server, keyTypes, pageSize, i);
    }
    forall i, j {:trigger marks[i], asked[j]} |
      0 <= i < |marks| && 0 <= j < |asked| && 0 + j < |answers| && asked[j] == marks[i]
      ensures answers[0 + j] == PageOrNone(server.table, goes, pageSize, i)
    {
      ReplyAfter(server, keyTypes, pageSize, i);
    }
  }

  /** The pages of a table of n rows: the full ones, and the short one that ends the export. */
  function PageCount(n: nat, pageSize: nat): nat
    requires pageSize > 0
  {
    n / pageSize + 1
  }

  lemma NextPage(k: nat, pageSize: nat, start: nat)
    requires start == k * pageSize
    ensures start + pageSize == (k + 1) * pageSize
  {}

  lemma MulMonotone(a: nat, b: nat, c: nat)
    requires a <= b
    ensures a * c <= b * c
  {}

  lemma PagesBelow(k: nat, pageSize: nat, n: nat)
    requires pageSize > 0 && k * pageSize <= n
    ensures k < PageCount(n, pageSize)
  {
    var q := n / pageSize;
    assert n < q * pageSize + pageSize;
    NextPage(q, pageSize, q * pageSize);
    if q < k {
      MulMonotone(q + 1, k, pageSize);
      assert false;
    }
  }

  lemma LastPage(k: nat, pageSize: nat, n: nat)
    requires pageSize > 0 && k * pageSize <= n < k * pageSize + pageSize
    ensures PageCount(n, pageSize) == k + 1
  {
    var q := n / pageSize;
    PagesBelow(k, pageSize, n);
    assert q * pageSize <= n;
    NextPage(k, pageSize, k * pageSize);
    if k < q {
      MulMonotone(k + 1, q, pageSize);
      assert false;
    }
  }

  /** The whole export of the server's table. */
  function ExportOf(server: Server, keyTypes: map<string, string>, pageSize: nat, answers: seq<Answer>): Run
    requires pageSize > 0
  {
    ExportFrom(Ask(server.name, server.keys, keyTypes, pageSize), NonMandt(server.keys), pageSize, answers, 0, None, [])
  }

  /** What the server is, for the results below. */
  predicate Serving(server: Server, ks: seq<string>, pageSize: nat) {
    && pageSize > 0 && ks == NonMandt(server.keys) && Shaped(server.table, ks)
    && IsIdentifier(server.name) && AllIdentifiers(server.keys)
  }

  /** With keys to paginate on. */
  lemma ExportsOrderedTable(server: Server, ks: seq<string>, keyTypes: map<string, string>, pageSize: nat,
                            answers: seq<Answer>)
    requires Serving(server, ks, pageSize) && Ordered(server.table, ks, server.less) && ks != []
    requires |answers| >= PageCount(|server.table.rows|, pageSize)
    requires ServedBy(server, ExportOf(server, keyTypes, pageSize, answers).sent, answers)
    ensures ExportOf(server, keyTypes, pageSize, answers).result
            == Expected(server.table, Goes(server, keyTypes), pageSize, 0)
  {
    var ask, table := Ask(server.name, server.keys, keyTypes, pageSize), server.table;
    var marks, goes, run := Marks(table, ks), Goes(server, keyTypes), ExportOf(server, keyTypes, pageSize, answers);
    OrderedIsMarked(table, ks, server.less);
    EveryQueryContinuesAPage(ask, ks, pageSize, answers, 0, None, []);
    ServedResumes(server, keyTypes, pageSize, run.asked, run.sent, answers);
    ExportsAllRows(ask, table, ks, marks, goes, pageSize, answers, 0, 0, []);
  }

  /** Without one, whatever the rows and their order: success exactly below a page. */
  lemma ExportsKeyless(server: Server, keyTypes: map<string, string>, pageSize: nat, answers: seq<Answer>)
    requires Serving(server, [], pageSize) && answers != []
    requires ServedBy(server, ExportOf(server, keyTypes, pageSize, answers).sent, answers)
    ensures var table := server.table;
            ExportOf(server, keyTypes, pageSize, answers).result
            == if !CanGoOn(server, keyTypes, 0) then QueryError(1)
               else if |table.rows| >= pageSize then NoKeyToPaginateOn(1) else Done(table.columns, table.rows, 1)
  {
    var ask := Ask(server.name, server.keys, keyTypes, pageSize);
    ReplyAt(server, keyTypes, pageSize, 0);
    FirstPage(server.table, [], keyTypes, server.less, pageSize);
    assert server.table.rows[0..] == server.table.rows;
    EveryQueryContinuesAPage(ask, [], pageSize, answers, 0, None, []);
    KeylessRun(ask, server.table, pageSize, answers, CanGoOn(server, keyTypes, 0));
  }

  lemma KeylessRun(ask: AskFn, table: Table, pageSize: nat, answers: seq<Answer>, goes: bool)
    requires pageSize > 0 && answers != []
    requires if goes then ask(None).Some? && answers[0] == Page(table.columns, Take(table.rows, pageSize))
             else ask(None).None? || answers[0] == QueryFailed
    ensures ExportFrom(ask, [], pageSize, answers, 0, None, []).result
            == if !goes then QueryError(1)
               else if |table.rows| >= pageSize then NoKeyToPaginateOn(1) else Done(table.columns, table.rows, 1)
  {}

  predicate IsBoundary(at: nat, pageSize: nat)
    requires pageSize > 0
  {
    at % pageSize == 0
  }

  /** The export can go on at every page boundary before end. */
  predicate GoesUpTo(goes: seq<bool>, pageSize: nat, end: nat)
    requires pageSize > 0 && end <= |goes|
  {
    forall at {:trigger goes[at]} | 0 <= at < end && IsBoundary(at, pageSize) :: goes[at]
  }

  /** at is the first boundary where it cannot. */
  predicate StopsAt(goes: seq<bool>, pageSize: nat, at: nat)
    requires pageSize > 0
  {
    at < |goes| && IsBoundary(at, pageSize) && !goes[at] && GoesUpTo(goes, pageSize, at)
  }

  lemma {:induction false} FailsAtMeans(goes: seq<bool>, pageSize: nat, start: nat)
    requires pageSize > 0 && start < |goes| && IsBoundary(start, pageSize) && GoesUpTo(goes, pageSize, start)
    ensures match FailsAt(goes, pageSize, start)
            case None => GoesUpTo(goes, pageSize, |goes|)
            case Some(at) => StopsAt(goes, pageSize, at)
    decreases |goes| - start
  {
    if goes[start] {
      var next := start + pageSize;
      GoesOneMore(goes, pageSize, start, if next < |goes| then next else |goes|);
      if next < |goes| {
        NextBoundary(start, pageSize);
        FailsAtMeans(goes, pageSize, next);
      }
    }
  }

  lemma GoesOneMore(goes: seq<bool>, pageSize: nat, start: nat, end: nat)
    requires pageSize > 0 && start < end <= |goes| && end <= start + pageSize && goes[start]
    requires IsBoundary(start, pageSize) && GoesUpTo(goes, pageSize, start)
    ensures GoesUpTo(goes, pageSize, end)
  {
    forall at {:trigger goes[at]} | 0 <= at < end && IsBoundary(at, pageSize) ensures goes[at] {
      NoBoundaryBetween(start, at, pageSize);
    }
  }

  lemma NextBoundary(start: nat, pageSize: nat)
    requires pageSize > 0 && IsBoundary(start, pageSize)
    ensures IsBoundary(start + pageSize, pageSize)
  {
    NextPage(start / pageSize, pageSize, start);
    LastPage(start / pageSize + 1, pageSize, start + pageSize);
  }

  lemma NoBoundaryBetween(start: nat, b: nat, pageSize: nat)
    requires pageSize > 0 && IsBoundary(start, pageSize) && b < start + pageSize && IsBoundary(b, pageSize)
    ensures b <= start
  {
    if start < b {
      LastPage(start / pageSize, pageSize, b);
    }
  }

  /** How an export ends, given where it can go on. */
  ghost predicate CompletesExactly(r: Export, table: Table, goes: seq<bool>, keyless: bool, pageSize: nat)
    requires pageSize > 0 && |goes| == |table.rows| + 1
  {
    var n := |table.rows|;
    && (r.Done? <==> !(keyless && n >= pageSize) && GoesUpTo(goes, pageSize, |goes|))
    && (r.Done? ==> r == Done(table.columns, table.rows, PageCount(n, pageSize)))
    && (!r.Done? && !(keyless && n >= pageSize) ==>
          exists at :: 0 <= at <= n && StopsAt(goes, pageSize, at) && r == QueryError(PageCount(at, pageSize)))
    && (keyless && n >= pageSize ==> r == if goes[0] then NoKeyToPaginateOn(1) else QueryError(1))
  }

  lemma KeyedCompletes(table: Table, goes: seq<bool>, pageSize: nat)
    requires pageSize > 0 && |goes| == |table.rows| + 1
    ensures CompletesExactly(Expected(table, goes, pageSize, 0), table, goes, false, pageSize)
  {
    LastPage(0, pageSize, 0);
    FailsAtMeans(goes, pageSize, 0);
    assert table.rows[0..] == table.rows;
  }

  /** Below a page the first boundary is the only one. */
  lemma KeylessCompletes(table: Table, goes: seq<bool>, pageSize: nat)
    requires pageSize > 0 && |goes| == |table.rows| + 1
    ensures CompletesExactly(if !goes[0] then QueryError(1) else if |table.rows| >= pageSize then NoKeyToPaginateOn(1)
                             else Done(table.columns, table.rows, 1), table, goes, true, pageSize)
  {
    LastPage(0, pageSize, 0);
    assert IsBoundary(0, pageSize);
    if |table.rows| < pageSize {
      LastPage(0, pageSize, |table.rows|);
      if goes[0] {
        GoesOneMore(goes, pageSize, 0, |goes|);
      } else {
        assert StopsAt(goes, pageSize, 0);
      }
    }
  }

  /** The main result for exportTable on a table of a server that reads what it is sent. It succeeds
      exactly when there is a key to paginate on, or less than a page, and no boundary row stops it; it
      then gives every row exactly once, in the table's order, in n / pageSize + 1 pages. With a key to
      paginate on the table has to be well-kept; without one it may hold any rows, also equal ones. */
  lemma ExportCompletesExactly(server: Server, keyTypes: map<string, string>, pageSize: nat, answers: seq<Answer>)
    requires Shaped(server.table, server.keys) && pageSize > 0
    requires NonMandt(server.keys) != [] ==> WellKept(server.table, server.keys, server.less)
    requires IsIdentifier(server.name) && AllIdentifiers(server.keys)
    requires |answers| >= if NonMandt(server.keys) == [] then 1 else PageCount(|server.table.rows|, pageSize)
    requires ServedBy(server, ExportOf(server, keyTypes, pageSize, answers).sent, answers)
    ensures Shaped(server.table, NonMandt(server.keys))
    ensures CompletesExactly(ExportOf(server, keyTypes, pageSize, answers).result, server.table, Goes(server, keyTypes),
                             NonMandt(server.keys) == [], pageSize)
  {
    var ks, goes := NonMandt(server.keys), Goes(server, keyTypes);
    if ks == [] {
      ExportsKeyless(server, keyTypes, pageSize, answers);
      KeylessCompletes(server.table, goes, pageSize);
    } else {
      WellKeptIsOrdered(server.table, server.keys, server.less);
      ExportsOrderedTable(server, ks, keyTypes, pageSize, answers);
      KeyedCompletes(server.table, goes, pageSize);
    }
  }

  /** A table that cannot be exported, whatever the server answers: its first row is a full page and
      has a key value with a semicolon, so the second query is refused before it is sent. */
  lemma {:induction false} SemicolonStopsTheExport(answers: seq<Answer>)
    requires |answers| > 0 && answers[0] == Page(["K"], [[";"]])
    ensures var run := ExportFrom(Ask("T", ["K"], map[], 1), ["K"], 1, answers, 0, None, []);
            run.result == QueryError(2) && |run.sent| == 1
  {
    var ask := Ask("T", ["K"], map[], 1);
    FirstQueryIsSent();
    SecondQueryIsRefused();
    SemicolonKey();
    LoopStep(ask, ["K"], 1, answers, 0, None, []);
  }

  lemma SemicolonKey()
    ensures KeyValues(["K"], ["K"], [";"]) == Some([";"])
  {
    assert ColumnIndex(["K"], "K") == Some(0);
    assert HasValue(["K"], "K", [";"]);
    var values := KeyValues(["K"], ["K"], [";"]).value;
    assert |values| == 1 && values[0] == [";"][0];
    assert values == [";"];
  }

  lemma FirstQueryIsSent()
    ensures Ask("T", ["K"], map[], 1)(None).Some?
  {
    KeyIsNoClient();
    assert WordsFit(StatementWords("T", ["K"], []));
    StatementArrivesExactly("T", ["K"], [], 1, false);
  }

  lemma SecondQueryIsRefused()
    ensures Ask("T", ["K"], map[], 1)(Some([";"])).None?
  {
    KeyIsNoClient();
    ConditionIsValid(["K"], map[], Some([";"]));
    InPageCondition(["K"], [";"], map[], ';');
    assert ";" in [";"] && ';' in ";";
    StatementEnds("T", ["K"], PageCondition(["K"], [";"], map[]));
  }

  lemma KeyIsNoClient()
    ensures NonMandt(["K"]) == ["K"]
  {
    assert Upper("K") == "K" && |"MANDT"| == 5;
  }
}
